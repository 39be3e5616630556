# Filter specifications of the render alignment library, in Dafny

This project models the filter-specification graph of the `render` image-alignment
library (`org.janelia.alignment.spec`), together with the filters such a graph builds.

A filter specification comes in three kinds:

- a **leaf** names a filter class and holds its string parameters;
- a **list** holds child specifications in order;
- a **reference** names another specification by id. It is resolved against an
  id-to-spec table. When the table names another reference, the reference adopts
  that reference's effective id (alias-chain compression).

Specifications can be:

- checked for full resolution;
- asked for their unresolved ids;
- resolved;
- flattened into their leaves;
- built into filters;
- validated.

A built filter can be exported back into a specification.

The built side covers the filter list `InputFilterList`, which runs its filters one after
the other. It also covers the configuration of the two concrete filters:

- `CLAHE`: its defaults, the map constructor, `init`, `getParams` and `equals`;
- `FlatFieldCorrection`: `init`, `getParams` and the size check in `process`.

How the model is laid out:

- The specification objects live in an arena: a `SpecGraph` holds a `map` from handles
  to nodes. A list stores its children's handles, and a bound reference stores its
  target's handle, so sharing and aliasing are explicit.
- Every walk over the graph is given twice. It is a recursive function (modules
  `SpecQueries`, `SpecResolve`, `SpecBuild`, `SpecExport`) about which the properties are
  proved. It is also a method of the class `SpecGraphs.SpecGraph` that follows the Java
  code: loops over a list's children, and in-place updates of the fields `specList`,
  `effectiveRefId`, `resolvedInstance` and `clazz`. Each method is proved equal to its
  function.
- Termination of the walks rests on a ghost ranking of the handles (`Ranked`). Children
  rank below their list and targets below their reference.
- `CLAHE.getParams` as written stores the slope under a key `init` does not read (see
  Findings). Everything that writes a filter's parameters, `FilterSpec.create` included,
  takes a `Filters.ParamsWriter`: `AsWritten` is the source's behaviour, `Corrected` the
  evidently intended one, and the round-trip properties are proved for both.
- The caller's `java.util.List` that `InputFilterList.getList` appends to is an object of
  the class `Filters.JavaList`, so the returned list is the argument itself.
- Java exceptions are values of `JavaLang.Failure`. Where Java changes state before it
  throws, the result is a `Partial` holding the state and the exception.

Files:

- `java_lang.dfy`: Java's options, results and exceptions; `Integer.parseInt` and
  `toString`; `Boolean.parseBoolean`; float bit patterns.
- `params.dfy`: parameter maps, as insertion-ordered association lists.
- `images.dfy`: images, reduced to their size.
- `clahe.dfy`, `flat_field.dfy`: the two filters.
- `filters.dfy`: built filters, the class registry and `InputFilterList`.
- `spec_nodes.dfy`: spec nodes, ranking and `removeNullSpecs`.
- `spec_queries.dfy`: `isFullyResolved`, `addUnresolvedIds` and `flatten`.
- `spec_resolve.dfy`: `resolveReferences`.
- `spec_build.dfy`: `buildInstance` and `validate`.
- `spec_export.dfy`: `FilterSpec.create`.
- `spec_graph.dfy`: the mutable spec objects.

## Model

Source paths are relative to the repository root. `S` below stands for
`render-app/src/main/java/org/janelia/alignment/spec` and `F` for
`render-app/src/main/java/org/janelia/alignment/filter`; the table spells them out.

| member | source | states |
|---|---|---|
| SpecNodes.HasId | render-app/src/main/java/org/janelia/alignment/spec/FilterSpec.java:38-40 | hasId() is true exactly when the id is non-null; a reference, constructed with a null id, never has one |
| SpecNodes.Normalize | render-app/src/main/java/org/janelia/alignment/spec/ReferenceFilterSpec.java:52-57 | writing the lazy default back keeps refId, the binding and the effective id as read, and leaves a non-null effective id unless refId is null |
| SpecNodes.NonNull | render-app/src/main/java/org/janelia/alignment/spec/ListFilterSpec.java:63-71 | removeNullSpecs leaves a list with no null entry and no longer than before |
| SpecNodes.NonNullAppend | render-app/src/main/java/org/janelia/alignment/spec/ListFilterSpec.java:63-71 | removing the nulls of a concatenation removes them from each part, so the remaining entries keep their relative order |
| SpecNodes.NonNullCounts | render-app/src/main/java/org/janelia/alignment/spec/ListFilterSpec.java:63-71 | exactly the null entries go: no null is left and every non-null entry stays as often as it occurred |
| SpecNodes.NonNullOfClean | render-app/src/main/java/org/janelia/alignment/spec/ListFilterSpec.java:63-71 | a list without nulls is left as it is |
| SpecNodes.NonNullIdempotent | render-app/src/main/java/org/janelia/alignment/spec/ListFilterSpec.java:63-71 | removing nulls twice removes nothing more |
| SpecQueries.IsFullyResolved | render-app/src/main/java/org/janelia/alignment/spec/ListFilterSpec.java:74-88 | isFullyResolved throws only the IllegalStateException of a null list entry |
| SpecQueries.ChildrenResolved | render-app/src/main/java/org/janelia/alignment/spec/ListFilterSpec.java:74-88 | the same, for a list's children from position i on |
| SpecQueries.Unresolved | render-app/src/main/java/org/janelia/alignment/spec/ListFilterSpec.java:90-95 | addUnresolvedIds throws only by dereferencing a null list entry |
| SpecQueries.UnresolvedChildren | render-app/src/main/java/org/janelia/alignment/spec/ListFilterSpec.java:90-95 | the same, for a list's children from position i on |
| SpecQueries.FlattenThrows | render-app/src/main/java/org/janelia/alignment/spec/ReferenceFilterSpec.java:88-94 | flatten throws only IllegalStateException, or NullPointerException on a null list entry |
| SpecQueries.ChildrenFlattenThrows | render-app/src/main/java/org/janelia/alignment/spec/ListFilterSpec.java:104-109 | the same, for a list's children from position i on |
| SpecQueries.ResolvedIffNoUnresolved | render-app/src/main/java/org/janelia/alignment/spec/FilterSpec.java:54-61 | a spec is fully resolved exactly when addUnresolvedIds adds nothing and does not throw; an unresolved spec reports at least one id; when the check throws, the collection throws too |
| SpecQueries.ChildrenResolvedIffNoUnresolved | render-app/src/main/java/org/janelia/alignment/spec/ListFilterSpec.java:73-95 | the same, for a list's children from position i on |
| SpecQueries.ChildrenResolvedFirstDecides | render-app/src/main/java/org/janelia/alignment/spec/ListFilterSpec.java:73-88 | the list scan is decided by the first child that is null (IllegalStateException) or unresolved (false); later children are not looked at |
| SpecQueries.FlattenSucceedsIffResolved | render-app/src/main/java/org/janelia/alignment/spec/ReferenceFilterSpec.java:88-94 | flatten throws nothing exactly when the spec is fully resolved |
| SpecQueries.ChildrenFlattenSucceedsIffResolved | render-app/src/main/java/org/janelia/alignment/spec/ListFilterSpec.java:104-109 | the same, for a list's children from position i on |
| SpecQueries.FlattenedAreLeaves | render-app/src/main/java/org/janelia/alignment/spec/LeafFilterSpec.java:100-103 | flatten appends only leaves of the graph, none ranked above the spec it started from |
| SpecQueries.ChildrenFlattenedAreLeaves | render-app/src/main/java/org/janelia/alignment/spec/ListFilterSpec.java:104-109 | the same, for a list's children |
| SpecResolve.ResolveRef | render-app/src/main/java/org/janelia/alignment/spec/ReferenceFilterSpec.java:74-86 | resolving a reference changes only references, keeps their refIds, never undoes a binding, and binds only to specs that are not references |
| SpecResolve.ResolveRefCases | render-app/src/main/java/org/janelia/alignment/spec/ReferenceFilterSpec.java:74-86 | the four outcomes: a bound reference is left as it is; a miss keeps it unbound with the same effective id; a hit on a reference only adopts that reference's effective id, and the looked-up reference gets its lazy default written back; a hit on anything else binds; nothing else in the graph changes |
| SpecResolve.ResolveAt | render-app/src/main/java/org/janelia/alignment/spec/ListFilterSpec.java:97-102 | resolving a spec keeps the list structure and its ranking, and only ever binds references to non-references |
| SpecResolve.ResolveChildren | render-app/src/main/java/org/janelia/alignment/spec/ListFilterSpec.java:97-102 | the same, for a list's children from position i on, visited in order |
| SpecResolve.ResolvedFromTransitive | render-app/src/main/java/org/janelia/alignment/spec/ReferenceFilterSpec.java:74-86 | what one resolution may change is closed under repetition |
| SpecResolve.TreeRankedAfter | render-app/src/main/java/org/janelia/alignment/spec/ListFilterSpec.java:97-102 | resolution leaves the lists, and so their ranking, as they were |
| SpecResolve.Passes | render-app/src/main/java/org/janelia/alignment/spec/ReferenceFilterSpec.java:74-86 | repeated resolution of one reference is a resolution step |
| SpecResolve.SelfReferenceNeverBinds | render-app/src/main/java/org/janelia/alignment/spec/ReferenceFilterSpec.java:77-80 | a reference whose effective id names itself never binds, keeps its effective id and changes nothing else, however often it is resolved |
| SpecResolve.AliasChainBindsOnThirdPass | render-app/src/main/java/org/janelia/alignment/spec/ReferenceFilterSpec.java:74-86 | in the chain "a" to "b" to "c" to a leaf, the first two passes move the effective id to "b" and then "c", and the third binds to the leaf |
| SpecBuild.LookupClass | render-app/src/main/java/org/janelia/alignment/spec/LeafFilterSpec.java:117-130 | getClazz returns the cached class if there is one; otherwise a null class name and an unknown class name throw, and a known one is found in the registry |
| SpecBuild.LookupCached | render-app/src/main/java/org/janelia/alignment/spec/LeafFilterSpec.java:117-130 | once found, the class is cached: later lookups return it whatever the registry holds, a failed lookup caches nothing, and caching again changes nothing |
| SpecBuild.BuildLeaf | render-app/src/main/java/org/janelia/alignment/spec/LeafFilterSpec.java:105-152 | the class is looked up and instantiated before the params are checked: a lookup failure, a non-filter class and a class that cannot be instantiated are reported even when params are null; otherwise null params throw, and non-null params give a new instance initialised once with them |
| SpecBuild.BuildThrows | render-app/src/main/java/org/janelia/alignment/spec/FilterSpec.java:150-156 | buildInstance throws only IllegalArgumentException (NumberFormatException included), or NullPointerException on a null list entry or a null slope |
| SpecBuild.ChildrenThrow | render-app/src/main/java/org/janelia/alignment/spec/ListFilterSpec.java:119-126 | the same, for the children of a list |
| SpecBuild.BuildListPointwise | render-app/src/main/java/org/janelia/alignment/spec/ListFilterSpec.java:118-126 | a list builds exactly when every child builds, into a list whose k-th filter is child k's build |
| SpecBuild.BuildListFirstFailure | render-app/src/main/java/org/janelia/alignment/spec/ListFilterSpec.java:118-126 | a list that does not build throws the exception of its first failing child, every earlier child having built |
| SpecBuild.BuildIgnoresCaches | render-app/src/main/java/org/janelia/alignment/spec/LeafFilterSpec.java:117-130 | filling class caches keeps the ranking and changes no build result |
| SpecBuild.BuildChildrenIgnoresCaches | render-app/src/main/java/org/janelia/alignment/spec/ListFilterSpec.java:118-126 | the same, for a list's children |
| SpecBuild.CachesKeepRanking | render-app/src/main/java/org/janelia/alignment/spec/LeafFilterSpec.java:117-130 | filling caches changes leaves only and keeps the graph ranked |
| SpecBuild.CachesFromTransitive | render-app/src/main/java/org/janelia/alignment/spec/LeafFilterSpec.java:117-130 | cache filling is closed under repetition |
| SpecBuild.BuildAllAppend | render-app/src/main/java/org/janelia/alignment/spec/ListFilterSpec.java:118-126 | building a concatenation of specs builds the first part, then the second |
| SpecBuild.BuildAll | render-app/src/main/java/org/janelia/alignment/spec/ListFilterSpec.java:119-126 | one filter per spec |
| SpecBuild.BuildAllPointwise | render-app/src/main/java/org/janelia/alignment/spec/ListFilterSpec.java:119-126 | building specs one after another succeeds exactly when each builds, and gives each one's filter in order |
| SpecBuild.FlattenPreservesBuild | render-app/src/main/java/org/janelia/alignment/spec/ListFilterSpec.java:104-126 | building the leaves flatten produces, one after another, gives the leaves of the spec's own build, in order, or the same exception |
| SpecBuild.ChildrenFlattenPreservesBuild | render-app/src/main/java/org/janelia/alignment/spec/ListFilterSpec.java:104-126 | the same, for a list's children |
| SpecBuild.ValidateOutcomes | render-app/src/main/java/org/janelia/alignment/spec/FilterSpec.java:51-63 | validate succeeds exactly when the spec is fully resolved and builds; an unresolved spec is reported with exactly the ids addUnresolvedIds collects, at least one; what it throws is an IllegalArgumentException, the IllegalStateException of a null list entry, or a NullPointerException |
| SpecExport.Export | render-app/src/main/java/org/janelia/alignment/spec/FilterSpec.java:165-179 | create, with getParams as written or corrected, takes fresh handles from next on and always makes the root spec |
| SpecExport.ExportAll | render-app/src/main/java/org/janelia/alignment/spec/FilterSpec.java:171-172 | one child spec per filter, in order |
| SpecExport.ExportRoot | render-app/src/main/java/org/janelia/alignment/spec/FilterSpec.java:165-179 | a list filter becomes a list spec with a fresh id and one child per filter, in order; any other filter becomes a leaf with a fresh id, its class name and the getParams() of the chosen writer (as written or corrected), with no metadata |
| SpecExport.ExportLayout | render-app/src/main/java/org/janelia/alignment/spec/FilterSpec.java:165-179 | an export uses exactly the handles from next up to the next free one, and its lists only point to later specs of the same export |
| SpecExport.ExportAllLayout | render-app/src/main/java/org/janelia/alignment/spec/FilterSpec.java:171-172 | the same, for the children of a list |
| SpecExport.ExportRanked | render-app/src/main/java/org/janelia/alignment/spec/FilterSpec.java:165-179 | an export is a well-ranked graph on its own |
| SpecExport.ExportBuilds | render-app/src/main/java/org/janelia/alignment/spec/FilterSpec.java:165-179 | building the spec created from a filter gives back what its parameters re-initialise to, in any graph holding the export, when the registry knows the filter classes: under the corrected getParams the filter itself when slopes survive their text form; under getParams as written the filter with every CLAHE slope at 2.5 |
| SpecExport.AsWrittenExportLosesSlope | render-app/src/main/java/org/janelia/alignment/spec/FilterSpec.java:174-176 | create as written, on a CLAHE whose slope is not 2.5, gives a spec that builds to the same CLAHE with slope 2.5, so not to the filter exported |
| SpecExport.ExportAllBuilds | render-app/src/main/java/org/janelia/alignment/spec/ListFilterSpec.java:118-126 | the children created for a list's filters build back, in order, to those filters (corrected getParams) or to them with every slope at 2.5 (as written) |
| SpecExport.ExportAllSnoc | render-app/src/main/java/org/janelia/alignment/spec/FilterSpec.java:171-172 | creating one more child appends one handle and the child's specs, from the next free handle on |
| SpecGraphs.LeafWalks | render-app/src/main/java/org/janelia/alignment/spec/LeafFilterSpec.java:85-103 | a leaf is fully resolved, adds no unresolved id, is left alone by resolution and flattens to itself |
| SpecGraphs.RefWalks | render-app/src/main/java/org/janelia/alignment/spec/ReferenceFilterSpec.java:59-103 | a reference is fully resolved exactly when bound to a resolved spec; unbound, it reports its effective id, cannot be flattened, and fails to build naming its refId; bound, it stands for its target |
| SpecGraphs.SpecGraph.constructor | render-app/src/main/java/org/janelia/alignment/spec/FilterSpec.java:32-36 | the object heap of spec objects, empty before any FilterSpec constructor runs (it models Java's heap, not a source method) |
| SpecGraphs.SpecGraph.Allocate | render-app/src/main/java/org/janelia/alignment/spec/FilterSpec.java:32-36 | Java's `new` behind each FilterSpec constructor: a new spec object gets a handle not in use, and nothing else changes |
| SpecGraphs.SpecGraph.NewLeaf | render-app/src/main/java/org/janelia/alignment/spec/LeafFilterSpec.java:68-75 | the full constructor stores id, metadata, class name and params, with no class cached |
| SpecGraphs.SpecGraph.NewLegacyLeaf | render-app/src/main/java/org/janelia/alignment/spec/LeafFilterSpec.java:53-58 | the legacy constructor leaves id and metadata null |
| SpecGraphs.SpecGraph.NewList | render-app/src/main/java/org/janelia/alignment/spec/ListFilterSpec.java:21-29 | a new list spec is empty |
| SpecGraphs.SpecGraph.NewRef | render-app/src/main/java/org/janelia/alignment/spec/ReferenceFilterSpec.java:42-46 | a new reference is unbound, has no id, and its effective id is refId |
| SpecGraphs.SpecGraph.NewDeserializedRef | render-app/src/main/java/org/janelia/alignment/spec/ReferenceFilterSpec.java:32-37 | the no-argument constructor leaves the effective id null, which then reads as refId |
| SpecGraphs.SpecGraph.GetSpec | render-app/src/main/java/org/janelia/alignment/spec/ListFilterSpec.java:31-33 | the entry at index, or IndexOutOfBoundsException outside the list |
| SpecGraphs.SpecGraph.GetLastSpec | render-app/src/main/java/org/janelia/alignment/spec/ListFilterSpec.java:35-43 | null on an empty list, otherwise the entry at size - 1 |
| SpecGraphs.SpecGraph.AddSpec | render-app/src/main/java/org/janelia/alignment/spec/ListFilterSpec.java:45-47 | the argument, null included, is appended; earlier entries and all other specs are unchanged |
| SpecGraphs.SpecGraph.RemoveLastSpec | render-app/src/main/java/org/janelia/alignment/spec/ListFilterSpec.java:49-53 | no change on an empty list, otherwise only the last entry goes |
| SpecGraphs.SpecGraph.AddAllSpecs | render-app/src/main/java/org/janelia/alignment/spec/ListFilterSpec.java:55-57 | all entries are appended in order; a null list throws and changes nothing |
| SpecGraphs.SpecGraph.Size | render-app/src/main/java/org/janelia/alignment/spec/ListFilterSpec.java:59-61 | the number of entries |
| SpecGraphs.SpecGraph.RemoveNullSpecs | render-app/src/main/java/org/janelia/alignment/spec/ListFilterSpec.java:63-71 | the iterator pass leaves exactly NonNull of the old entries and changes no other spec |
| SpecGraphs.SpecGraph.GetEffectiveRefId | render-app/src/main/java/org/janelia/alignment/spec/ReferenceFilterSpec.java:52-57 | returns the effective id, refId when it was null, and writes that default back |
| SpecGraphs.SpecGraph.IsFullyResolvedAt | render-app/src/main/java/org/janelia/alignment/spec/ListFilterSpec.java:73-88 | isFullyResolved, with its early break and its null check, returns IsFullyResolved |
| SpecGraphs.SpecGraph.AddUnresolvedIds | render-app/src/main/java/org/janelia/alignment/spec/ListFilterSpec.java:90-95 | the set grows by exactly the ids Unresolved collects; a null child throws after the earlier children have added theirs |
| SpecGraphs.SpecGraph.GetUnresolvedIds | render-app/src/main/java/org/janelia/alignment/spec/FilterSpec.java:95-99 | addUnresolvedIds on an empty set, which stays empty exactly when the spec is fully resolved |
| SpecGraphs.SpecGraph.ResolveReference | render-app/src/main/java/org/janelia/alignment/spec/ReferenceFilterSpec.java:74-86 | the field updates of resolveReferences, with the effective-id write-backs, give exactly ResolveRef |
| SpecGraphs.SpecGraph.ResolveReferences | render-app/src/main/java/org/janelia/alignment/spec/ListFilterSpec.java:97-102 | resolving every child in turn leaves exactly the graph and exception of ResolveAt |
| SpecGraphs.SpecGraph.CollectFlattened | render-app/src/main/java/org/janelia/alignment/spec/ListFilterSpec.java:104-109 | the leaves flatten visits, in order, are Flattened |
| SpecGraphs.SpecGraph.Flatten | render-app/src/main/java/org/janelia/alignment/spec/LeafFilterSpec.java:100-103 | the target list gets the spec's leaves appended after its existing entries, those appended before an exception included; nothing else changes and the graph stays ranked |
| SpecGraphs.SpecGraph.GetClazz | render-app/src/main/java/org/janelia/alignment/spec/LeafFilterSpec.java:117-130 | returns LookupClass and caches what it found in the leaf |
| SpecGraphs.SpecGraph.BuildLeafInstance | render-app/src/main/java/org/janelia/alignment/spec/LeafFilterSpec.java:105-115 | returns BuildLeaf and leaves the leaf's class cached |
| SpecGraphs.SpecGraph.BuildInstance | render-app/src/main/java/org/janelia/alignment/spec/FilterSpec.java:71-74 | buildInstance, and so getNewInstance, returns Build of the graph it started from; only class caches change |
| SpecGraphs.SpecGraph.BuildListInstance | render-app/src/main/java/org/janelia/alignment/spec/ListFilterSpec.java:118-126 | adding each child's instance to a new filter list gives Build of the list, or its first child's exception |
| SpecGraphs.SpecGraph.Validate | render-app/src/main/java/org/janelia/alignment/spec/FilterSpec.java:54-63 | validate throws exactly what Validate says and changes only class caches |
| SpecGraphs.SpecGraph.Create | render-app/src/main/java/org/janelia/alignment/spec/FilterSpec.java:165-179 | create adds exactly the specs of Export, with the same getParams writer, to the graph, from the next free handle on, and returns the root; the source's create is the writer as written |
| SpecGraphs.SpecGraph.CreateChildren | render-app/src/main/java/org/janelia/alignment/spec/FilterSpec.java:170-173 | the loop of addSpec(create(t)) leaves the list holding the children of ExportAll, in order |
| SpecGraphs.SpecGraph.AddChild | render-app/src/main/java/org/janelia/alignment/spec/FilterSpec.java:172 | one turn of that loop: the child's specs join the graph from the next free handle on, and the child's handle is appended to the list |
| JavaLang.ParseInt | render-app/src/main/java/org/janelia/alignment/filter/CLAHE.java:69-72 | Integer.parseInt throws NumberFormatException on null and on anything it cannot read |
| JavaLang.ParseIntToString | render-app/src/main/java/org/janelia/alignment/filter/CLAHE.java:82-83 | Integer.parseInt reads back every Integer.toString |
| JavaLang.ParseBoolean | render-app/src/main/java/org/janelia/alignment/filter/CLAHE.java:67-68 | Boolean.parseBoolean is true only for a four-letter non-null string |
| JavaLang.ParseBoolToString | render-app/src/main/java/org/janelia/alignment/filter/CLAHE.java:81 | Boolean.parseBoolean reads back Boolean.toString |
| JavaLang.ParseFloat | render-app/src/main/java/org/janelia/alignment/filter/CLAHE.java:73-74 | Float.parseFloat dereferences null, and succeeds exactly on text the float reader accepts |
| ParamMaps.IndexOf | render-app/src/main/java/org/janelia/alignment/filter/CLAHE.java:67-74 | a key is found at its first position, or reported absent when no entry has it |
| ClaheFilter.ConfigureFields | render-app/src/main/java/org/janelia/alignment/filter/CLAHE.java:66-75 | init sets fast exactly when its key is present, and a field whose key is absent keeps its value |
| ClaheFilter.Configure | render-app/src/main/java/org/janelia/alignment/filter/CLAHE.java:66-75 | init throws only NumberFormatException or NullPointerException |
| ClaheFilter.ConfigureOutcome | render-app/src/main/java/org/janelia/alignment/filter/CLAHE.java:66-75 | init throws exactly when a present value does not parse; without an exception every present value is parsed into its field |
| ClaheFilter.InitReadsOnlyItsKeys | render-app/src/main/java/org/janelia/alignment/filter/CLAHE.java:66-75 | unknown keys are ignored: maps that agree on the four keys give the same result |
| ClaheFilter.FromMap | render-app/src/main/java/org/janelia/alignment/filter/CLAHE.java:28-38 | the map constructor reads all four keys; missing or non-"true" fast gives false; it succeeds exactly when the three numbers parse; NumberFormatException is wrapped in IllegalArgumentException, a null slope's NullPointerException is not |
| ClaheFilter.FromMapIsInitOfFullMap | render-app/src/main/java/org/janelia/alignment/filter/CLAHE.java:28-38 | on a map holding all four keys, the map constructor and init agree on success and on the settings |
| ClaheFilter.FromMapValue | render-app/src/main/java/org/janelia/alignment/filter/CLAHE.java:28-38 | on success the map constructor stores the settings init gives from the same map, fast read whether present or not |
| ClaheFilter.AsWrittenLookups | render-app/src/main/java/org/janelia/alignment/filter/CLAHE.java:79-87 | getParams holds the keys fast, blockradius, bins, slop in that order, with the settings as text, and no key slope |
| ClaheFilter.GetParamsAsWritten | render-app/src/main/java/org/janelia/alignment/filter/CLAHE.java:79-87 | getParams holds four entries, no key twice, and no key "slope" |
| ClaheFilter.AsWrittenRoundTripKeepsSlope | render-app/src/main/java/org/janelia/alignment/filter/CLAHE.java:73 | init(getParams()) restores fast, blockRadius and bins but leaves slope as it was |
| ClaheFilter.AsWrittenRoundTripLosesSlope | render-app/src/main/java/org/janelia/alignment/filter/CLAHE.java:84 | a default CLAHE initialised from another's getParams differs from it when that slope is not 2.5 |
| ClaheFilter.CorrectedLookups | render-app/src/main/java/org/janelia/alignment/filter/CLAHE.java:79-87 | the corrected getParams holds fast, blockradius, bins and slope, with the settings as text |
| ClaheFilter.GetParamsCorrected | render-app/src/main/java/org/janelia/alignment/filter/CLAHE.java:79-87 | the corrected getParams holds four entries, no key twice |
| ClaheFilter.RoundTrip | render-app/src/main/java/org/janelia/alignment/filter/CLAHE.java:66-87 | with the corrected key, init(getParams()) restores all four settings on any CLAHE, without throwing |
| ClaheFilter.Equals | render-app/src/main/java/org/janelia/alignment/filter/CLAHE.java:54-64 | equals is false for null and for any object whose class is not exactly CLAHE; on a CLAHE it is true exactly when fast, blockRadius and bins are equal and the slopes are float-==; so an instance equals its own settings exactly when its slope is not NaN |
| ClaheFilter.EqualsIsIdentity | render-app/src/main/java/org/janelia/alignment/filter/CLAHE.java:54-64 | for a slope that is neither NaN nor a zero, equals holds exactly when the settings are identical |
| ClaheFilter.EqualsSymmetric | render-app/src/main/java/org/janelia/alignment/filter/CLAHE.java:54-64 | equals between two CLAHEs is symmetric |
| ClaheFilter.SameParamsEqual | render-app/src/main/java/org/janelia/alignment/filter/CLAHE.java:54-75 | an instance initialised without error equals itself exactly when its slope is not NaN |
| ClaheFilter.Clahe.constructor | render-app/src/main/java/org/janelia/alignment/filter/CLAHE.java:12-19 | a default CLAHE has fast true, blockRadius 500, bins 256 and slope 2.5 |
| ClaheFilter.Clahe.WithSettings | render-app/src/main/java/org/janelia/alignment/filter/CLAHE.java:21-26 | the four-argument constructor stores its arguments |
| ClaheFilter.Clahe.FromParams | render-app/src/main/java/org/janelia/alignment/filter/CLAHE.java:28-38 | the map constructor gives a new object with FromMap's settings, or throws FromMap's exception |
| ClaheFilter.Clahe.Init | render-app/src/main/java/org/janelia/alignment/filter/CLAHE.java:66-75 | the field assignments of init leave the settings and exception Configure gives, fields assigned before an exception included |
| ClaheFilter.Clahe.GetParams | render-app/src/main/java/org/janelia/alignment/filter/CLAHE.java:79-87 | the puts into a new LinkedHashMap give the as-written parameters |
| ClaheFilter.Clahe.EqualsObject | render-app/src/main/java/org/janelia/alignment/filter/CLAHE.java:54-64 | equals(Object) on the object's fields: another CLAHE with equal fast, blockRadius and bins and a float-== slope |
| FlatFieldFilter.Configure | render-app/src/main/java/org/janelia/alignment/filter/FlatFieldCorrection.java:78-83 | init succeeds exactly when flatfieldimage is present, taking its value, null included; otherwise IllegalArgumentException |
| FlatFieldFilter.ParamsOfLookups | render-app/src/main/java/org/janelia/alignment/filter/FlatFieldCorrection.java:85-90 | getParams has exactly one key, flatfieldimage, mapped to the path |
| FlatFieldFilter.ParamsOf | render-app/src/main/java/org/janelia/alignment/filter/FlatFieldCorrection.java:85-90 | getParams holds one entry, and no key "slope" |
| FlatFieldFilter.RoundTrip | render-app/src/main/java/org/janelia/alignment/filter/FlatFieldCorrection.java:78-90 | init(getParams()) restores the path |
| FlatFieldFilter.ConfigureReadsOnlyItsKey | render-app/src/main/java/org/janelia/alignment/filter/FlatFieldCorrection.java:78-83 | keys other than flatfieldimage are ignored |
| FlatFieldFilter.Process | render-app/src/main/java/org/janelia/alignment/filter/FlatFieldCorrection.java:20-28 | a missing image dereferences null; a size mismatch throws exactly when scale <= 0 and the sizes differ; a result has the input's size |
| FlatFieldFilter.FlatFieldCorrection.constructor | render-app/src/main/java/org/janelia/alignment/filter/FlatFieldCorrection.java:15-17 | the implicit constructor leaves the path null |
| FlatFieldFilter.FlatFieldCorrection.Init | render-app/src/main/java/org/janelia/alignment/filter/FlatFieldCorrection.java:78-83 | init sets the path as Configure says, and leaves it unchanged when it throws |
| FlatFieldFilter.FlatFieldCorrection.GetParams | render-app/src/main/java/org/janelia/alignment/filter/FlatFieldCorrection.java:85-90 | the put into a new map gives ParamsOf the current path |
| FlatFieldFilter.FlatFieldCorrection.ProcessImage | render-app/src/main/java/org/janelia/alignment/filter/FlatFieldCorrection.java:20-28 | process with its resize and size check returns Process |
| Filters.NewInstance | render-app/src/main/java/org/janelia/alignment/spec/LeafFilterSpec.java:132-152 | Class.newInstance of a filter class gives a single filter of that class, with its field initialisers: a default CLAHE, or a flat-field correction with a null path |
| Filters.Init | render-app/src/main/java/org/janelia/alignment/spec/LeafFilterSpec.java:113 | init(Map) on a single filter keeps its class |
| Filters.GetParams | render-app/src/main/java/org/janelia/alignment/spec/FilterSpec.java:174-176 | the getParams() that create stores: no key twice, and a "slope" key only for a CLAHE under the corrected writer |
| Filters.ReinitRoundTrip | render-app/src/main/java/org/janelia/alignment/spec/FilterSpec.java:174-176 | a new instance of a filter's class initialised from that filter's parameters is that filter again under the corrected getParams (when its slope survives its text form), and that filter with slope 2.5 under getParams as written |
| Filters.ProcessAll | render-app/src/main/java/org/janelia/alignment/filter/InputFilterList.java:29-34 | an exception from a filter list is the exception of one of its filters on some input at the same scale |
| Filters.Compose | render-app/src/main/java/org/janelia/alignment/filter/InputFilterList.java:29-34 | the same, for any sequence of filters and any process function |
| Filters.ComposeAppend | render-app/src/main/java/org/janelia/alignment/filter/InputFilterList.java:29-34 | running a concatenation of filters runs the first part, then the second on its output |
| Filters.ProcessAllIsCompose | render-app/src/main/java/org/janelia/alignment/filter/InputFilterList.java:29-34 | processing a filter list is composing its filters' process functions left to right |
| Filters.ProcessLeaves | render-app/src/main/java/org/janelia/alignment/filter/InputFilterList.java:29-34 | processing nested filter lists is processing their single filters in order |
| Filters.ProcessLeavesAll | render-app/src/main/java/org/janelia/alignment/filter/InputFilterList.java:29-34 | the same, for a sequence of filters |
| Filters.FirstMatch | render-app/src/main/java/org/janelia/alignment/filter/InputFilterList.java:15 | the first position holding an element equal to t, or -1 when none does |
| Filters.RemoveFirst | render-app/src/main/java/org/janelia/alignment/filter/InputFilterList.java:15 | remove(E) drops only the first equal element, shifting the rest down, or nothing |
| Filters.InputFilterList.constructor | render-app/src/main/java/org/janelia/alignment/filter/InputFilterList.java:13 | a new filter list is empty |
| Filters.InputFilterList.Add | render-app/src/main/java/org/janelia/alignment/filter/InputFilterList.java:14 | add appends at the end |
| Filters.InputFilterList.Remove | render-app/src/main/java/org/janelia/alignment/filter/InputFilterList.java:15 | the search loop removes exactly RemoveFirst |
| Filters.InputFilterList.RemoveAt | render-app/src/main/java/org/janelia/alignment/filter/InputFilterList.java:16 | remove(int) returns the element at i and shifts the later ones down; out of range it throws and changes nothing |
| Filters.InputFilterList.Get | render-app/src/main/java/org/janelia/alignment/filter/InputFilterList.java:17 | the element at i, or IndexOutOfBoundsException |
| Filters.InputFilterList.Clear | render-app/src/main/java/org/janelia/alignment/filter/InputFilterList.java:18 | clear empties the list |
| Filters.InputFilterList.GetList | render-app/src/main/java/org/janelia/alignment/filter/InputFilterList.java:19-24 | the filters are appended in order to the caller's list, whose earlier entries stay, and that same list object is returned; a null argument gives a new list holding just the filters |
| Filters.InputFilterList.Process | render-app/src/main/java/org/janelia/alignment/filter/InputFilterList.java:29-34 | the loop feeds each filter the previous output with the same scale, returning Compose of the filters; an empty list returns the input |
| Filters.InputFilterList.InitFromString | render-app/src/main/java/org/janelia/alignment/filter/InputFilterList.java:36 | init(String) changes nothing |
| Filters.InputFilterList.ToDataString | render-app/src/main/java/org/janelia/alignment/filter/InputFilterList.java:37 | toDataString returns null |
| Filters.JavaList.constructor | render-app/src/main/java/org/janelia/alignment/filter/InputFilterList.java:21 | new ArrayList() is empty |
| Filters.JavaList.AddAll | render-app/src/main/java/org/janelia/alignment/filter/InputFilterList.java:22 | addAll appends its argument's elements in order |

## Left out

- JSON: `toJson`, `fromJson`, `fromJsonArray` and the type annotations of FilterSpec.java are
  not modelled. They are library-driven, and the JSON helper is not part of this model.
  `NewDeserializedRef` stands for the state deserialization leaves a reference in.
- Fresh ids: `UUID.randomUUID()` in `create` is a parameter, `uuid`, that gives the id for
  each new handle.
- Reflection: `Class.forName` and `Class.newInstance` are a registry from class names to
  class descriptions. The registry knows a filter class, a class that is not a filter, and
  a class whose instantiation throws. Only CLAHE and FlatFieldCorrection are filter kinds;
  Invert has no parameter map and is not part of this model.
- Interface: `InputFilter.java` declares `init(String)` and `toDataString()`. The spec
  classes call `init(Map)` and `getParams()` on filters, so the model follows those calls.
- Pixel processing: `CLAHE.process`, the pixel loops of `FlatFieldCorrection.process` and
  `IJ.openImage` are functions supplied by the caller (`Runtime`, `FlatFieldOps`). Only the
  resize and size check are modelled.
- Float text: `Float.parseFloat` and `Float.toString` are supplied by the caller
  (`FloatText`). Float equality follows Java `==` on the bit pattern.
- FlatFieldFilter.Process and FlatFieldFilter.FlatFieldCorrection.ProcessImage: `scale`
  is a `real`, where Java's is a `double`. A NaN scale fails `scale > 0` and takes the
  no-resize path like a non-positive one, so Java throws IllegalArgumentException whenever
  the sizes differ; a real scale cannot be NaN, so that input cannot be expressed. The same
  holds for the scale that `Filters.Process` and the caller's `Filters.Runtime` pass on.
- Cycles: every walk requires a ranking of the graph, so a list that contains itself, or a
  reference bound into its own spec, is outside the model. Java would overflow its stack
  on such a graph.
- SpecGraphs.SpecGraph.AddUnresolvedIds: the write-back that `getEffectiveRefId()`
  performs on each unbound reference it visits is not modelled. That write-back does not
  change any effective id as read.
- SpecGraphs.SpecGraph.CollectFlattened: the same write-back in the exception message of
  `ReferenceFilterSpec.flatten` is not modelled.
- SpecGraphs.SpecGraph.Validate: the same write-back, through `addUnresolvedIds`, is not
  modelled.
- SpecGraphs.SpecGraph.Flatten: the leaves are appended after the walk instead of during
  it, which ends in the same list. The method requires that the target list ranks above
  the spec, so the spec cannot reach it; flattening a spec into a list it contains is not
  modelled.
- SpecGraphs.SpecGraph.Create: a `create` argument that is not an `InputFilter` (which
  gives null in Java) cannot be expressed, since every modelled filter is one.
- JavaLang.ParseInt: only the ASCII digits '0' to '9' are read. `Integer.parseInt` also
  accepts the other decimal digits Unicode knows (`Character.digit`), such as Arabic-Indic
  ones, which depend on the Java version's Unicode tables. Such a value makes the model
  throw where Java parses.
- SpecGraphs.SpecGraph.Size: returns an unbounded count. A Java `int` size cannot overflow
  for a list held in memory.
- Metadata: `FilterSpecMetaData` is carried as an optional value and never inspected.
- Getters: `getId`, `getMetaData`, `getClassName`, `getParams` and `getRefId` are the fields
  of the node datatype.
- `ListFilterSpec.getNewInstanceAsList` is `getNewInstance` with a cast and is not
  separately modelled.
- Thread safety: the "distinct and thread safe" promise of `getNewInstance` is a concurrency
  claim and is not modelled. Each build does return a value distinct from the spec graph.
- Repeated resolution: no code in these files repeats `resolveReferences` until a fixed
  point. `SpecResolve.Passes` only describes repeated passes over one reference.

## Findings

| source | as written | input that shows it | evidently intended | confidence | as-written member | corrected member |
|---|---|---|---|---|---|---|
| render-app/src/main/java/org/janelia/alignment/filter/CLAHE.java:84 | `getParams` stores the slope under the key `"slop"`, while `init` reads `"slope"` (line 73) | a CLAHE with slope 1.0: `new CLAHE().init(c.getParams())` keeps slope 2.5, so the exported filter does not rebuild to itself | `getParams` stores the slope under `"slope"`, and `init(getParams())` restores all four settings | high; not executed | ClaheFilter.AsWrittenRoundTripLosesSlope | ClaheFilter.RoundTrip |
| render-app/src/main/java/org/janelia/alignment/spec/FilterSpec.java:174-176 | `create` stores the CLAHE's `getParams()`, whose slope `init` does not read | a CLAHE with slope 1.0: `create(c).getNewInstance()` is a CLAHE with slope 2.5 | the spec created from a filter builds back to that filter | high; not executed | SpecExport.AsWrittenExportLosesSlope | SpecExport.ExportBuilds |
