# Data registry catalog: a verified model

This project models the core of a Django data registry. The catalog records data stores, sources, data products, processing scripts, models and their versions, and model runs. Any record can carry severity-rated issues. It models two files.

- `data_management/models.py`:
  - the class hierarchy (`BaseModel`, `DataObject`, `DataObjectVersion` and 18 concrete kinds);
  - the two registries `all_object_models` and `all_models`, computed from the module namespace;
  - the derived names (`DataObjectVersion.name`, `ModelRun.name`, `Issue.__str__`, `reverse_name`);
  - what the schema declares: `REQUIRED_FIELDS`, `VERSIONED_OBJECT`, `EXTRA_DISPLAY_FIELDS`, foreign keys, related names, `Meta.ordering`;
  - the table constraints those declarations imply. Stored names are unique per table; the derived names of versions and runs carry no such constraint. Every foreign key cascades on delete. Issues attach to any (kind, id) pair. These constraints are built into a small in-memory catalog with guarded create, rename and cascading delete.
- `data_management/views.py`:
  - the labels that `index` and the list and detail views put in their template contexts;
  - the loop that generates a `<Name>ListView` and a `<Name>DetailView` for each object kind;
  - the separately declared Issue views;
  - the index page's walk over the object kinds in name order.

The model has seven modules.

- **`Text`** (`text.dfy`): ASCII `str.lower()`, `'%s' % n` for a non-negative integer, the ISO rendering of a `datetime.date`, and Python's ordering of `str`.
- **`Kinds`** (`kinds.dfy`): the hierarchy as datatypes, `issubclass` as a recursive predicate for targets inside the BaseModel hierarchy, and the schema facts.
- **`Registry`** (`registry.dfy`): the module namespace and the two registries.
  - The namespace is a map from names to bound values. It holds the imported names and the declared classes.
  - Each registry is the comprehension over that map, filtered by `issubclass` and by the excluded names.
- **`Names`** (`names.dfy`): the derived names and their injectivity.
- **`Catalog`** (`catalog.dfy`): rows keyed by (kind, id), the consistency invariant, validation on create and rename, and the cascade closure on delete. The class `Store` holds the rows and updates them in place.
- **`Views`** (`views.dfy`):
  - template contexts as a `Context` object that the `GetContextData` methods update in place;
  - the generation loop as a `while` loop. `Views.GenerateViews` is proved to bind exactly the names that `Views.ViewFor`, a definition reading a view back from its name, recognises, each to that view;
  - `index` as a `for` loop over the registry's names, which a selection loop sorts. `Views.Sorted` is proved equal to `Views.SortedOrder`, an independent definition of sorted order, and `Views.Index` to one `Views.IndexEntry` per name in that order;
  - the hand-written Issue views (views.py:71-77) as the constants `Views.IssueListView` and `Views.IssueDetailView` of the datatype `Views.DeclaredView`: built on Django's generic views (`Views.GenericView`), with their model and `context_object_name` and no `model_name`. `ObjectViews.IssueViewsNotGenerated` states that the generation loop adds no other Issue view.
- **`ObjectViews`** (`objectviews.dfy`): the generation loop and the index applied to the registry `all_object_models` itself.

`camel_case_to_spaces`, the per-kind row counts and the class docstrings come from code outside the model. They are passed to `Index`, `ListContext` and `DetailContext` as function parameters.

## Model

| member | source | states |
|---|---|---|
| Text.Lower | data_management/models.py:24-25 | lower-casing keeps the length and lowers each character on its own |
| Text.LowerIdempotent | data_management/models.py:24-25 | lowering a lowered name changes nothing |
| Text.Decimal | data_management/models.py:70-71 | the rendering of a severity is a non-empty run of digits with no leading zero |
| Text.DecimalRoundTrip | data_management/models.py:70-71 | reading the digits back gives the number |
| Text.DecimalInjective | data_management/models.py:70-71 | two severities render alike exactly when they are equal |
| Text.PaddedValue | data_management/models.py:181 | a zero-padded date component reads back as its number |
| Text.PaddedLength | data_management/models.py:181 | a component below 10^width pads to exactly width digits |
| Text.IsoFormat | data_management/models.py:191 | `str(date)`, zero-padded `YYYY-MM-DD`; `Text.IsoRoundTrip` and `Text.IsoInjective` state its length, its read-back and its injectivity |
| Text.IsoRoundTrip | data_management/models.py:181 | a valid release date renders as ten characters that parse back to the same date |
| Text.IsoInjective | data_management/models.py:181 | two valid dates render alike exactly when they are equal |
| Text.StrLess | data_management/views.py:15 | Python's `<` on `str`, the order `sorted()` uses; the next four lemmas prove it a strict total order |
| Text.StrLessIrreflexive | data_management/views.py:15 | no name sorts before itself |
| Text.StrLessTransitive | data_management/views.py:15 | the order on names is transitive |
| Text.StrLessTotal | data_management/views.py:15 | any two distinct names are ordered one way or the other |
| Text.StrLessAsymmetric | data_management/views.py:15 | two names are never ordered both ways |
| Kinds.IsSubclass | data_management/models.py:10-179 | `issubclass` for targets inside the BaseModel hierarchy (the mixin and `models.Model` are not modelled as bases); `Kinds.SubclassCharacterisation` ties it to the two predicates below |
| Kinds.IsDataObject | data_management/models.py:35-179 | the concrete kinds deriving from `DataObject`: exactly those that `issubclass(cls, DataObject)` accepts (`Kinds.SubclassCharacterisation`) |
| Kinds.IsBaseModel | data_management/models.py:10-187 | the classes deriving from `BaseModel`: exactly the three bases and the 18 kinds (`Kinds.SubclassCharacterisation`) |
| Kinds.Superclass | data_management/models.py:10-187 | each class's direct base within the hierarchy: `DeclaredBase` for the kinds, and it sits strictly higher, so `issubclass` terminates |
| Kinds.DeclaredBase | data_management/models.py:63-187 | the base named in each of the 18 class statements |
| Kinds.SubclassCharacterisation | data_management/models.py:35-187 | `issubclass` of BaseModel, DataObject and DataObjectVersion over the declared bases agrees with the explicit predicates, both ways |
| Kinds.KindNamed | data_management/models.py:194-202 | a kind read back from a class name has that name |
| Kinds.KindNameRoundTrip | data_management/models.py:194-202 | a concrete class's name reads back as the class |
| Kinds.KindNameInjective | data_management/models.py:194-202 | distinct kinds have distinct names, and conversely |
| Kinds.AllKindsComplete | data_management/models.py:63-187 | the enumeration of concrete kinds lists every kind |
| Registry.Globals | data_management/models.py:1-192 | `globals()` once the module's last class is defined; `Registry.GlobalTypeNames` and `Registry.GlobalClassBinding` state which names hold which classes |
| Registry.AllObjectModels | data_management/models.py:194-197 | `all_object_models`; `Registry.AllObjectModelsExact` states it holds exactly the DataObject kinds under their names |
| Registry.AllModels | data_management/models.py:199-202 | `all_models`; `Registry.AllModelsExact` states it holds exactly the 18 kinds under their names |
| Registry.ClassNamed | data_management/models.py:1-202 | a declared class read back from a module-level name has that name |
| Registry.ClassNameRoundTrip | data_management/models.py:1-202 | every declared class is found again under its own name |
| Registry.DeclaredClassNamesDistinct | data_management/models.py:1-202 | no two declared classes share a module-level name |
| Registry.ClassBindingAt | data_management/models.py:1-202 | each declared class is bound in the namespace under its name |
| Registry.ClassBindingNamed | data_management/models.py:1-202 | every class binding in the namespace is some declared class under its own name |
| Registry.ClassNamesNamed | data_management/models.py:1-202 | every module-level class name is the name of a declared class |
| Registry.GlobalClassBinding | data_management/models.py:194-202 | a name bound to a class is bound to the declared class of that name |
| Registry.GlobalTypeNames | data_management/models.py:1-202 | a module-level name is bound to a class exactly when it is a declared class's name |
| Registry.KindBinding | data_management/models.py:194-202 | each concrete kind is bound to its class under its name |
| Registry.KindNameNotAbstract | data_management/models.py:194-202 | no concrete kind is named like one of the abstract bases the registries exclude |
| Registry.AllObjectModelsExact | data_management/models.py:194-197 | `all_object_models` has a key exactly for each DataObject kind, under its class name, bound to that class, and nothing else |
| Registry.AllModelsExact | data_management/models.py:199-202 | `all_models` has a key exactly for each concrete kind, bound to that class; the abstract bases and foreign classes are absent |
| Registry.ObjectModelsWithinModels | data_management/models.py:194-202 | the object registry is contained in the full registry with the same classes, and the difference is exactly Issue and the six reference kinds |
| Registry.ObjectModelsAgree | data_management/models.py:194-202 | every object model is registered in the full registry under the same name with the same class |
| Registry.RegistryDifferenceWithin | data_management/models.py:194-202 | every name in the full registry but not the object registry is Issue or a reference kind |
| Registry.RegistryDifferenceCovers | data_management/models.py:194-202 | Issue and each reference kind are in the full registry and not in the object registry |
| Registry.NonObjectNameIsKind | data_management/models.py:194-202 | every such name is the name of a non-DataObject kind |
| Registry.IssueIsNotAnObjectModel | data_management/models.py:63 | Issue is registered as a model but not as an object model |
| Kinds.ForeignKeys | data_management/models.py:64-187 | each kind's foreign keys with target, nullability and related name; `Kinds.SupersedesIsSelfReference` and `Kinds.VersionedObjectIsParentKey` state their shape |
| Kinds.ManyToManyFields | data_management/models.py:156-186 | the three many-to-many fields with targets and related names; `Catalog.Unlink` and `Catalog.DeleteKeepsSurvivors` state how deletion treats them |
| Kinds.VersionedObject | data_management/models.py:49-173 | `VERSIONED_OBJECT` of each version class, as a field; `Kinds.VersionedObjectIsParentKey` states it is the non-null key to the parent |
| Kinds.ParentKind | data_management/models.py:117-173 | the class a version class versions; the target of `VersionedObject` (`Kinds.VersionedObjectIsParentKey`) |
| Kinds.VersionedObjectIsParentKey | data_management/models.py:117-173 | `VERSIONED_OBJECT` names a non-null foreign key of the kind itself, to its unversioned parent kind, with related name `versions`; the parent has a stored name |
| Kinds.SupersedesIsSelfReference | data_management/models.py:51 | exactly the versioned kinds and ModelRun have a nullable `supersedes` key to their own kind, and it is the only nullable key |
| Kinds.RequiredFields | data_management/models.py:22-53 | `REQUIRED_FIELDS`; characterised by the next lemma and enforced by `Catalog.RequiredNameEnforced` |
| Kinds.RequiredFieldsCharacterisation | data_management/models.py:22-53 | `REQUIRED_FIELDS` is empty exactly for the versioned kinds and holds `name` for every other kind |
| Kinds.ExtraDisplayFields | data_management/models.py:21-171 | `EXTRA_DISPLAY_FIELDS`; the next lemma states each entry is a reverse accessor onto the kind |
| Kinds.ExtraDisplayFieldsResolve | data_management/models.py:126-171 | every entry of `EXTRA_DISPLAY_FIELDS` is the related name of some key or many-to-many field pointing at that kind |
| Kinds.EffectiveOrdering | data_management/models.py:27-45 | the `Meta.ordering` a class ends with under Django's `Meta` inheritance; the next lemma states it per kind |
| Kinds.DefaultOrderingByKind | data_management/models.py:27-45 | the direct BaseModel subclasses order by name ascending, then last update descending; DataObject kinds have no default order, because DataObject's own Meta replaces BaseModel's |
| Names.VersionName | data_management/models.py:55-57 | `DataObjectVersion.name`; `Names.VersionNameParts` and `Names.VersionNameInjective` state its parts and injectivity |
| Names.RunName | data_management/models.py:189-191 | `ModelRun.name`; `Names.RunOfVersionName` and `Names.RunNameInjective` state its parts and injectivity per version |
| Names.IssueLabel | data_management/models.py:70-71 | `Issue.__str__`; `Names.IssueLabelParts` and `Names.IssueLabelInjective` state its parts and injectivity |
| Names.ReverseName | data_management/models.py:24-25 | `reverse_name()`; `Views.PluralLabelIsReverseName` states the list label is it plus `s` |
| Names.VersionNameParts | data_management/models.py:55-57 | a version's name is its parent's name followed by ` (version <id>)`, with the exact length |
| Names.VersionNameInjective | data_management/models.py:55-57 | with one identifier the name determines the parent's name, and with one parent it determines the identifier, both ways |
| Names.RunOfVersionName | data_management/models.py:189-191 | a run's name nests its model version's derived name: the model's name, the version identifier, then ` (Run <date>)` |
| Names.RunNameInjective | data_management/models.py:189-191 | two runs of one model version are named alike exactly when their valid release dates are equal |
| Names.IssueLabelParts | data_management/models.py:70-71 | an issue's label is its name followed by ` [Severity <n>]` |
| Names.IssueLabelInjective | data_management/models.py:70-71 | with one name the label determines the severity, and with one severity it determines the name, both ways |
| Names.DefaultSeverityLabel | data_management/models.py:67-71 | an issue with the default severity is labelled `<name> [Severity 1]` |
| Catalog.Consistent | data_management/models.py:11-187 | the table constraints: rows well formed, valid and resolving, stored names unique per table; create, rename and delete are proved to keep it |
| Catalog.NameOf | data_management/models.py:31-191 | the `name` every row answers, stored or derived; `Catalog.NameTotal` states a valid catalog names every row, `Catalog.VersionNameReadsParent` and `Catalog.RunNameReadsModel` how |
| Catalog.Display | data_management/models.py:31-71 | `str(row)`: the name, or an issue's label; `Catalog.NameTotal` states it always exists in a valid catalog |
| Catalog.StoredNameByKind | data_management/models.py:11-57 | a row has a stored name exactly when its kind has one: not the versioned kinds, not ModelRun |
| Catalog.RowFramed | data_management/models.py:11-187 | a valid row stays valid when rows are added and its value is replaced by a valid one of the same shape, keys and links unchanged |
| Catalog.VersionNameOf | data_management/models.py:55-57 | a derived version name exists only for a version row whose parent key is set and resolves to a named row |
| Catalog.VersionNameReadsParent | data_management/models.py:55-57 | in a consistent catalog every version's parent resolves, and its name is built from the parent's current name and its identifier |
| Catalog.RunModelVersionResolves | data_management/models.py:180 | in a consistent catalog every run's model version resolves |
| Catalog.RunRowResolves | data_management/models.py:180 | a well-formed run row whose references resolve has a model version that resolves |
| Catalog.RunNameReadsModel | data_management/models.py:189-191 | in a consistent catalog a run's name is its model version's current name followed by its release date |
| Catalog.RunNameFromVersion | data_management/models.py:189-191 | a run is named after its model version's name whenever that name exists |
| Catalog.StoredRunDateValid | data_management/models.py:181 | every stored run's release date is a date `datetime.date` can hold |
| Catalog.RunNamesSeparateDates | data_management/models.py:181-191 | two stored runs of one model version are named alike exactly when they share their release date |
| Catalog.NameTotal | data_management/models.py:31-71 | every row of a consistent catalog has a name and a display string |
| Catalog.MissingParentIsAnError | data_management/models.py:55-57 | a version whose parent key is unset or dangles has no name: it is an error naming the parent field, not a default |
| Catalog.CreateError | data_management/models.py:11-187 | creation reports no error exactly when the row has its kind's shape and keys, valid values (release dates included), resolving references and an untaken name |
| Catalog.RowError | data_management/models.py:11-187 | the checks needing no other row pass exactly when the row has its kind's shape, every non-null key and valid field values |
| Catalog.ValueError | data_management/models.py:11-181 | the column rules of `name`, `version_identifier`, `release_date`, `severity` and `desc`; `Catalog.RowError` states they pass exactly for valid values |
| Catalog.NameError | data_management/models.py:11 | a name is accepted exactly when it is non-blank and at most 255 characters |
| Catalog.MissingRequired | data_management/models.py:87-187 | reports a non-null foreign key the row leaves unset, or there is none |
| Catalog.FirstDangling | data_management/models.py:87-187 | reports a field holding a reference to no row, or no field does |
| Catalog.ReferenceError | data_management/models.py:87-187 | no reference error exactly when every key and link of the row resolves |
| Catalog.UniqueError | data_management/models.py:11 | no uniqueness error exactly when no row of the same table has the same stored name |
| Catalog.RequiredNameEnforced | data_management/models.py:11-53 | a blank name is refused, and an accepted row has a non-blank name of its own exactly when its kind lists `name` in `REQUIRED_FIELDS` and stores it |
| Catalog.CreatePreservesConsistent | data_management/models.py:11-187 | storing a row that passes every check under a fresh key keeps the catalog consistent |
| Catalog.NewNameKeepsUnique | data_management/models.py:11 | a new row with an untaken name keeps names unique per table |
| Catalog.SecondNameRefused | data_management/models.py:11 | after one row is stored, a second row of the same table with the same name is refused, as a duplicate when nothing else is wrong with it |
| Catalog.NameTaken | data_management/models.py:11 | once a row is stored, its stored name is taken in its table |
| Catalog.DerivedNameCopyAccepted | data_management/models.py:11-191 | a copy of a version or a run under a fresh id is accepted, keeps the catalog valid and has the same name as the row it copies |
| Catalog.ReferenceErrorGrows | data_management/models.py:87-187 | a row whose references resolve is not refused for them in a larger catalog |
| Catalog.ReferencesGrow | data_management/models.py:87-187 | references that resolve keep resolving when rows are added |
| Catalog.RenameError | data_management/models.py:11-57 | a rename is refused for a missing row, a computed name, an invalid or taken name; `Catalog.RenamePreservesConsistent` states an accepted one keeps the invariant |
| Catalog.RenamePreservesConsistent | data_management/models.py:11 | an accepted rename keeps the catalog consistent |
| Catalog.RenamedValueOk | data_management/models.py:11 | a valid new name leaves a row's value of the same shape and valid |
| Catalog.RenameKeepsUnique | data_management/models.py:11 | an accepted rename keeps names unique per table |
| Catalog.RenameReachesVersions | data_management/models.py:55-57 | after renaming a parent, each of its versions is named after the new name |
| Catalog.Referrers | data_management/models.py:42-187 | the rows depending on a set are rows of the catalog |
| Catalog.ReferrersMonotone | data_management/models.py:42-187 | a larger set has at least the same dependants |
| Catalog.Closure | data_management/models.py:42-187 | the cascade contains the deleted rows, lies within the catalog, and contains every row depending on one of its members |
| Catalog.ClosureLeast | data_management/models.py:42-187 | the cascade lies within every set that contains the deleted rows and is closed under dependency, so nothing unrelated is removed |
| Catalog.Unlink | data_management/models.py:156-186 | dropping links to deleted rows leaves values, keys and link fields unchanged, and keeps exactly the linked ids of surviving rows |
| Catalog.AfterDelete | data_management/models.py:42-187 | the catalog after a cascading delete; `Catalog.DeletePreservesConsistent` and `Catalog.DeleteKeepsSurvivors` state what goes and what stays |
| Catalog.DeletePreservesConsistent | data_management/models.py:42-187 | deletion removes exactly the cascade and leaves a consistent catalog: no key dangles |
| Catalog.DeleteKeepsSurvivors | data_management/models.py:156-186 | a surviving row keeps its value and keys, and loses from its links exactly the ids of deleted rows |
| Catalog.SurvivorOk | data_management/models.py:42-187 | a row outside a dependency-closed deleted set stays valid once its links to deleted rows are dropped |
| Catalog.VersionsGoWithParent | data_management/models.py:117-173 | deleting a parent deletes each of its versions |
| Catalog.ChainInClosed | data_management/models.py:51 | a set closed under dependency that holds the end of a `supersedes` chain holds the whole chain |
| Catalog.SupersedingVersionsGo | data_management/models.py:51 | deleting a version deletes every version whose `supersedes` chain reaches it |
| Catalog.IssuesFor | data_management/models.py:63-66 | the scoped listing holds exactly the issues whose target is the given pair |
| Catalog.AllIssues | data_management/models.py:63-66 | the global listing holds exactly the issues |
| Catalog.IssuesGoWithDataObject | data_management/models.py:42 | after a DataObject is deleted, no issue is attached to it |
| Catalog.IssueOnNonObjectSurvives | data_management/models.py:63-66 | an issue attached to a non-DataObject row survives, unchanged, any deletion but its own |
| Catalog.Store.constructor | data_management/models.py:10-202 | a new catalog is empty and consistent |
| Catalog.Store.Create | data_management/models.py:11-187 | succeeds exactly when creation reports no error; then adds the row under a fresh key of its kind, else changes nothing and returns that error; keeps the invariant |
| Catalog.Store.Attach | data_management/models.py:63-68 | attaches an issue to any pair without checking the target; succeeds exactly when the name is valid and untaken, the description is non-blank and at most 1024 characters, and the severity is at most 32767; the issue then appears in both listings |
| Catalog.Store.AttachWithDefaultSeverity | data_management/models.py:67 | an issue created without a severity is stored with severity 1, under the same conditions otherwise |
| Catalog.Store.Rename | data_management/models.py:11-57 | applies the rename exactly when it is accepted, else changes nothing; a computed name cannot be set |
| Catalog.Store.Delete | data_management/models.py:42-187 | removes exactly the cascade of an existing row and returns it; a missing row is not found and nothing changes |
| Catalog.Store.Name | data_management/models.py:31-71 | every stored row has a name; a missing row is not found |
| Views.PluralLabel | data_management/views.py:17 | the plural label is the name lowered character by character, followed by `s` |
| Views.PluralLabelIsReverseName | data_management/views.py:17-58 | a class's plural label is its `reverse_name()` plus `s` |
| Views.Context.constructor | data_management/views.py:47 | the context starts as what the generic view supplied |
| Views.Context.Set | data_management/views.py:48-60 | setting a key changes that key only |
| Views.ListContext | data_management/views.py:46-50 | the list context keeps every inherited entry, sets `model_name` to the lowered name and `display_name` to the spaced name plus `s`, and adds nothing else |
| Views.DetailContext | data_management/views.py:56-61 | the detail context keeps every inherited entry, sets `list_name`, `list_display_name` and `model_name`, and adds nothing else |
| Views.ListAndDetailAgree | data_management/views.py:48-60 | a detail page links back under the list page's display name, agrees with it on `model_name`, and its `list_name` is that `model_name` plus `s` |
| Views.ListPage.constructor | data_management/views.py:42-44 | a generated list view is bound to its class and name, with context name `objects` and the object-list template |
| Views.ListPage.GetContextData | data_management/views.py:46-50 | updates the supplied context in place into the list context |
| Views.DetailPage.constructor | data_management/views.py:53-54 | a generated detail view is bound to its class and name, with context name `object` |
| Views.DetailPage.GetContextData | data_management/views.py:56-61 | updates the supplied context in place into the detail context |
| Views.ViewFor | data_management/views.py:64-68 | a module-level name bound by the generation loop is a registered name followed by `ListView` or `DetailView`, bound to that name's class |
| Views.ViewsOfName | data_management/views.py:65-68 | every registered name gets its list view and its detail view |
| Views.GenerateViews | data_management/views.py:65-68 | the loop binds exactly the names read back as generated views, to those views, whatever order it visits the registry in |
| ObjectViews.OneViewPairPerKind | data_management/views.py:65-68 | each object kind has exactly one generated list view and exactly one generated detail view, named after it |
| ObjectViews.NoViewOutsideRegistry | data_management/views.py:65-68 | no generated view is bound to a kind outside the object registry |
| ObjectViews.IssueViewNamesUnbound | data_management/views.py:71-77 | the loop binds neither `IssueListView` nor `IssueDetailView` |
| Views.IssueNamesUnbound | data_management/views.py:71-77 | with `Issue` unregistered, neither Issue view name is generated |
| Views.UnboundWhenPrefixUnregistered | data_management/views.py:65-68 | an unregistered name gets neither view |
| Views.SuffixesExclusive | data_management/views.py:67-68 | no name ends both in `ListView` and in `DetailView`, so the two generated names never collide |
| ObjectViews.IssueViewsNotGenerated | data_management/views.py:65-77 | the generated bindings take neither Issue view's name and serve no Issue page, so the hand-written classes add the only Issue views |
| Views.LeastExists | data_management/views.py:15 | every non-empty set of names has a least element |
| Views.SortedOrder | data_management/views.py:15 | the sorted names are strictly ascending, hold exactly the set, and have its size |
| Views.AscendingUnique | data_management/views.py:15 | a set has only one strictly ascending enumeration |
| Views.TailMember | data_management/views.py:15 | two ascending enumerations with one first element agree on the rest |
| Views.Least | data_management/views.py:15 | finds the least name of a non-empty set |
| Views.Sorted | data_management/views.py:15 | `sorted()` of the registry's names is their ascending enumeration |
| Views.IndexEntry | data_management/views.py:16-20 | an index row carries the plural label, the spaced name, the count and the docstring of its kind |
| Views.Index | data_management/views.py:11-20 | one row per registered kind, row i being the entry of the i-th name in ascending order |
| ObjectViews.IndexOrder | data_management/views.py:15 | the index names strictly ascend |
| ObjectViews.IndexRowLabel | data_management/views.py:15-17 | every index row is a DataObject kind, and its label is its `reverse_name()` plus `s` |
| Views.IndexAndListDisplayNames | data_management/views.py:18-59 | the list page's display name is the index's plus `s`, and the detail page's `list_name` is the index row's name |

## Where the code decides

- An issue's display string is built from its `name` (models.py:71). Its description is not part of it.
- Only `Issue` and the six reference kinds, which derive from `BaseModel` directly, get the default `name`, `-last_updated` ordering (models.py:27-29). `DataObject` declares a `Meta` of its own that does not derive from `BaseModel.Meta` (models.py:44-45), so the object kinds have no default ordering.
- Issues of a record are deleted with it only when the record is a DataObject. The `GenericRelation` that cascades is declared on `DataObject` (models.py:42). An issue attached to a reference kind survives the deletion of its target and then dangles.
- An issue's target is not checked when the issue is written. A dangling target shows up only when it is dereferenced.
- Versions and runs may share a name. The `name` property of `DataObjectVersion` (models.py:55-57) and of `ModelRun` (models.py:189-191) replaces the unique `name` column declared at models.py:11, so those five tables have no unique column. `Catalog.DerivedNameCopyAccepted` shows a copy of such a row is accepted under the same name.
- `ModelRun` derives from `DataObject`, not from `DataObjectVersion`. It keeps `REQUIRED_FIELDS = ['name']` although its name is computed.

## Left out

- The user fields (`updated_by`, `responsible_person`) and the `auto_now` timestamp `last_updated` come from authentication and the clock. They are not modelled, and the `content_type` key of Issue points at Django's own table.
- The non-relational columns other than `name`, `version_identifier`, `release_date` and an issue's `severity` and `desc` are not modelled (`description`, `uri`, `path`, `hash`, `access_info` and the rest), nor are their blank or length rules.
- Catalog ids come from one counter across all tables, not from a sequence per table. Which of several errors a create reports first follows a fixed order of this model: shape, required keys, values, references, uniqueness.
- Uniqueness under concurrent writers is the storage engine's job. The model is sequential.
- `Catalog.CreateError`: the maximum lengths of `version_identifier` (a `CharField`, which the database also enforces as a `varchar` length) and of `desc` (a `TextField`, whose `max_length` only forms and serializers enforce) are both enforced on every create. The model does not distinguish the layer that refuses.
- The ORM queries (`objects.count()`, `Issue.objects.all()`), template rendering and request handling are left out. `Views.Index` takes the counts and docstrings as functions, and camel-case splitting is a function parameter.
- Token issuance and revocation (views.py:25-39) are database writes with no logic of their own.
- Python reflection (`type(...)`, writing into `globals()`) is replaced by the map `Views.GenerateViews` returns. The explicit datatypes stand in for classes.
- `Kinds.IsSubclass`: BaseModel's own bases, `ModelFieldRequiredMixin` and `models.Model` (models.py:10), are not modelled, so `issubclass` of a model class against them answers false here. The registries test only `DataObject` and `BaseModel` (models.py:196, 201), which this does not affect.
- `Registry.AllModels` reads the same namespace as `Registry.AllObjectModels`. In the source it also sees the `all_object_models` binding (models.py:194); that value is a `dict`, which its `isinstance(cls, type)` test rejects, so the result is the same.
- `Views.PluralLabel`: lower-casing covers ASCII letters only, which suffices for the class names involved.
- The catalog has three operations on rows: create, rename and delete. Changing an existing row's keys or other values, and `m2m.add()` on an existing row, are not modelled; links are set only at creation.
- Cycles in `supersedes` are not prevented by the code. A `Store` cannot build one, because every key must resolve when its row is created and no key changes afterwards. The `Catalog.Closure` lemmas hold for any `Db`, cyclic or not.
- Ids and an issue's `object_id` are unbounded `nat`s. The source's `AutoField` and `PositiveIntegerField` are 32-bit columns; their overflow is not modelled.
