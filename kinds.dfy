/** The catalog's type system (data_management/models.py): the concrete
    model classes, the three abstract bases they derive from, and the
    per-kind schema facts the rest of the model needs (foreign keys,
    `VERSIONED_OBJECT`, `REQUIRED_FIELDS`, default ordering). */
module Kinds {

  import opened Text

  /** The 18 concrete model classes. */
  datatype Kind =
    | Issue
    | DataProductType
    | StorageType
    | StorageRoot
    | DataStore
    | Accessibility
    | SourceType
    | Source
    | SourceVersion
    | DataProduct
    | DataProductDataType
    | ProcessingScript
    | ProcessingScriptVersion
    | DataProductVersion
    | DataProductVersionComponent
    | Model
    | ModelVersion
    | ModelRun

  /** The abstract bases `BaseModel`, `DataObject` and `DataObjectVersion`. */
  datatype AbstractBase = BaseModel | DataObject | DataObjectVersion

  /** A class bound in the module's namespace: an abstract base, a concrete
      kind, or a class that is not part of the BaseModel hierarchy
      (`URIField`, `ContentType` and the other imported classes). */
  datatype PyClass =
    | AbstractClass(base: AbstractBase)
    | ConcreteClass(kind: Kind)
    | ForeignClass(foreignName: string)

  /** A value bound at module level: a class, or anything else (the
      imported modules, `settings`). */
  datatype PyValue = TypeValue(cls: PyClass) | OtherValue

  // ---------------------------------------------------------------------
  // The class hierarchy

  predicate IsVersioned(k: Kind) {
    k in {SourceVersion, ProcessingScriptVersion, DataProductVersion, ModelVersion}
  }

  /** The DataObject subclasses: the versioned kinds and seven others. */
  predicate IsDataObject(k: Kind) {
    IsVersioned(k)
    || k in {DataStore, Source, DataProduct, ProcessingScript, DataProductVersionComponent, Model, ModelRun}
  }

  /** The direct superclass within the BaseModel hierarchy. BaseModel's own
      bases, `ModelFieldRequiredMixin` and `models.Model`, are left out. */
  function Superclass(c: PyClass): (r: Option<PyClass>)
    ensures r.Some? ==> Depth(r.value) < Depth(c)
  {
    match c
    case AbstractClass(BaseModel) => None
    case AbstractClass(DataObject) => Some(AbstractClass(BaseModel))
    case AbstractClass(DataObjectVersion) => Some(AbstractClass(DataObject))
    case ConcreteClass(k) => Some(AbstractClass(DeclaredBase(k)))
    case ForeignClass(_) => None
  }

  /** The base each concrete class statement names. */
  function DeclaredBase(k: Kind): AbstractBase {
    match k
    case Issue => BaseModel
    case DataProductType => BaseModel
    case StorageType => BaseModel
    case StorageRoot => BaseModel
    case DataStore => DataObject
    case Accessibility => BaseModel
    case SourceType => BaseModel
    case Source => DataObject
    case SourceVersion => DataObjectVersion
    case DataProduct => DataObject
    case DataProductDataType => BaseModel
    case ProcessingScript => DataObject
    case ProcessingScriptVersion => DataObjectVersion
    case DataProductVersion => DataObjectVersion
    case DataProductVersionComponent => DataObject
    case Model => DataObject
    case ModelVersion => DataObjectVersion
    case ModelRun => DataObject
  }

  function Depth(c: PyClass): nat {
    match c
    case AbstractClass(BaseModel) => 0
    case AbstractClass(DataObject) => 1
    case AbstractClass(DataObjectVersion) => 2
    case ConcreteClass(_) => 3
    case ForeignClass(_) => 0
  }

  /** Python's `issubclass(c, a)` for a target `a` inside the BaseModel
      hierarchy: `a` is `c` or one of its ancestors there. */
  predicate IsSubclass(c: PyClass, a: PyClass)
    decreases Depth(c)
  {
    c == a || (Superclass(c).Some? && IsSubclass(Superclass(c).value, a))
  }

  /** A BaseModel class: one of the abstract bases or a concrete kind. */
  predicate IsBaseModel(c: PyClass) {
    c.AbstractClass? || c.ConcreteClass?
  }

  /** The explicit enumerations agree with `issubclass` over the bases the
      class statements declare. */
  lemma SubclassCharacterisation(c: PyClass)
    ensures IsSubclass(c, AbstractClass(BaseModel)) <==> IsBaseModel(c)
    ensures c.ConcreteClass? ==> (IsSubclass(c, AbstractClass(DataObject)) <==> IsDataObject(c.kind))
    ensures c.ConcreteClass? ==> (IsSubclass(c, AbstractClass(DataObjectVersion)) <==> IsVersioned(c.kind))
  {
  }

  /** `cls.__name__`. */
  function ClassName(c: PyClass): string {
    match c
    case AbstractClass(BaseModel) => "BaseModel"
    case AbstractClass(DataObject) => "DataObject"
    case AbstractClass(DataObjectVersion) => "DataObjectVersion"
    case ForeignClass(n) => n
    case ConcreteClass(k) => KindName(k)
  }

  function KindName(k: Kind): string {
    match k
    case Issue => "Issue"
    case DataProductType => "DataProductType"
    case StorageType => "StorageType"
    case StorageRoot => "StorageRoot"
    case DataStore => "DataStore"
    case Accessibility => "Accessibility"
    case SourceType => "SourceType"
    case Source => "Source"
    case SourceVersion => "SourceVersion"
    case DataProduct => "DataProduct"
    case DataProductDataType => "DataProductDataType"
    case ProcessingScript => "ProcessingScript"
    case ProcessingScriptVersion => "ProcessingScriptVersion"
    case DataProductVersion => "DataProductVersion"
    case DataProductVersionComponent => "DataProductVersionComponent"
    case Model => "Model"
    case ModelVersion => "ModelVersion"
    case ModelRun => "ModelRun"
  }

  /** The inverse of `KindName`. Testing the name's length first keeps the
      verifier from comparing the argument against every one of the 18
      names in turn. */
  function KindNamed(s: string): (r: Option<Kind>)
    ensures r.Some? ==> KindName(r.value) == s
  {
    var n := |s|;
    if n == 5 then (if s == "Issue" then Some(Issue) else if s == "Model" then Some(Model) else None)
    else if n == 6 then (if s == "Source" then Some(Source) else None)
    else if n == 8 then (if s == "ModelRun" then Some(ModelRun) else None)
    else if n == 9 then (if s == "DataStore" then Some(DataStore) else None)
    else if n == 10 then (if s == "SourceType" then Some(SourceType) else None)
    else if n == 11 then
      (if s == "StorageType" then Some(StorageType)
       else if s == "StorageRoot" then Some(StorageRoot)
       else if s == "DataProduct" then Some(DataProduct)
       else None)
    else if n == 12 then (if s == "ModelVersion" then Some(ModelVersion) else None)
    else if n == 13 then
      (if s == "Accessibility" then Some(Accessibility)
       else if s == "SourceVersion" then Some(SourceVersion)
       else None)
    else if n == 15 then (if s == "DataProductType" then Some(DataProductType) else None)
    else if n == 16 then (if s == "ProcessingScript" then Some(ProcessingScript) else None)
    else if n == 18 then (if s == "DataProductVersion" then Some(DataProductVersion) else None)
    else if n == 19 then (if s == "DataProductDataType" then Some(DataProductDataType) else None)
    else if n == 23 then (if s == "ProcessingScriptVersion" then Some(ProcessingScriptVersion) else None)
    else if n == 27 then (if s == "DataProductVersionComponent" then Some(DataProductVersionComponent) else None)
    else None
  }

  lemma KindNameRoundTrip(k: Kind)
    ensures KindNamed(KindName(k)) == Some(k)
  {
  }

  /** Distinct kinds have distinct class names. */
  lemma KindNameInjective(j: Kind, k: Kind)
    ensures KindName(j) == KindName(k) <==> j == k
  {
    if KindName(j) == KindName(k) {
      KindNameRoundTrip(j);
      KindNameRoundTrip(k);
    }
  }

  const AllKinds: set<Kind> := {
    Issue, DataProductType, StorageType, StorageRoot, DataStore, Accessibility, SourceType,
    Source, SourceVersion, DataProduct, DataProductDataType, ProcessingScript,
    ProcessingScriptVersion, DataProductVersion, DataProductVersionComponent, Model,
    ModelVersion, ModelRun }

  lemma AllKindsComplete(k: Kind)
    ensures k in AllKinds
  {
  }

  // ---------------------------------------------------------------------
  // Schema: stored and computed names, foreign keys, VERSIONED_OBJECT

  /** Kinds whose `name` is a stored column; the versioned kinds and
      `ModelRun` replace it by a computed property. */
  predicate HasStoredName(k: Kind) {
    !IsVersioned(k) && k != ModelRun
  }

  /** `REQUIRED_FIELDS`: `['name']` from BaseModel, cleared by DataObjectVersion. */
  function RequiredFields(k: Kind): seq<string> {
    if IsVersioned(k) then [] else ["name"]
  }

  /** The relational fields the kinds declare, one constructor per attribute
      (`type`, `store_root`, `store`, `source_type`, `source`, `accessibility`,
      `supersedes`, `processing_script`, `data_product`, `data_type`,
      `processing_script_version`, `data_product_version`, `model`,
      `model_version`, `source_versions`, `inputs`, `outputs`). */
  datatype Field =
    | TypeField | StoreRoot | Store | SourceTypeField | SourceField | AccessibilityField
    | Supersedes | ProcessingScriptField | DataProductField | DataType
    | ProcessingScriptVersionField | DataProductVersionField | ModelField | ModelVersionField
    | SourceVersions | Inputs | Outputs

  /** The name of a reverse accessor: an explicit `related_name` or Django's
      default `<model>_set`. */
  datatype RelatedName = Versions | Components | ModelRuns | SupersededBy | DefaultSet(from: Kind)

  /** A single-valued foreign key. Every one of them is `on_delete=CASCADE`. */
  datatype ForeignKey = ForeignKey(target: Kind, nullable: bool, relatedName: RelatedName)

  /** A many-to-many field. */
  datatype ManyToManyField = ManyToManyField(target: Kind, relatedName: RelatedName)

  function Fk(from: Kind, target: Kind): ForeignKey {
    ForeignKey(target, false, DefaultSet(from))
  }

  /** The `supersedes` self-reference DataObjectVersion declares. */
  function SupersedesVersion(k: Kind): ForeignKey {
    ForeignKey(k, true, SupersededBy)
  }

  /** The foreign keys each kind declares (the user references, and the
      ContentType and generic target of an Issue, excepted). */
  function ForeignKeys(k: Kind): map<Field, ForeignKey> {
    match k
    case Issue => map[]
    case DataProductType => map[]
    case StorageType => map[]
    case StorageRoot => map[TypeField := Fk(k, StorageType)]
    case DataStore => map[StoreRoot := Fk(k, StorageRoot)]
    case Accessibility => map[]
    case SourceType => map[]
    case Source => map[Store := Fk(k, DataStore), SourceTypeField := Fk(k, SourceType)]
    case SourceVersion =>
      map[SourceField := ForeignKey(Source, false, Versions), Store := Fk(k, DataStore),
          AccessibilityField := Fk(k, Accessibility), Supersedes := SupersedesVersion(k)]
    case DataProduct => map[]
    case DataProductDataType => map[TypeField := Fk(k, DataProductType)]
    case ProcessingScript => map[Store := Fk(k, DataStore)]
    case ProcessingScriptVersion =>
      map[ProcessingScriptField := ForeignKey(ProcessingScript, false, Versions),
          Store := Fk(k, DataStore), AccessibilityField := Fk(k, Accessibility),
          Supersedes := SupersedesVersion(k)]
    case DataProductVersion =>
      map[DataProductField := ForeignKey(DataProduct, false, Versions),
          DataType := Fk(k, DataProductDataType), Store := Fk(k, DataStore),
          AccessibilityField := Fk(k, Accessibility),
          ProcessingScriptVersionField := Fk(k, ProcessingScriptVersion),
          Supersedes := SupersedesVersion(k)]
    case DataProductVersionComponent =>
      map[DataProductVersionField := ForeignKey(DataProductVersion, false, Components)]
    case Model => map[Store := Fk(k, DataStore)]
    case ModelVersion =>
      map[ModelField := ForeignKey(Model, false, Versions), Store := Fk(k, DataStore),
          AccessibilityField := Fk(k, Accessibility), Supersedes := SupersedesVersion(k)]
    case ModelRun =>
      map[ModelVersionField := ForeignKey(ModelVersion, false, ModelRuns),
          Supersedes := ForeignKey(ModelRun, true, DefaultSet(ModelRun))]
  }

  /** The many-to-many fields each kind declares. */
  function ManyToManyFields(k: Kind): map<Field, ManyToManyField> {
    match k
    case DataProductVersion => map[SourceVersions := ManyToManyField(SourceVersion, DefaultSet(k))]
    case ModelRun =>
      map[Inputs := ManyToManyField(DataProductVersionComponent, ModelRuns),
          Outputs := ManyToManyField(DataProductVersion, ModelRuns)]
    case _ => map[]
  }

  /** `VERSIONED_OBJECT`: the field holding a version's unversioned parent. */
  function VersionedObject(k: Kind): Field
    requires IsVersioned(k)
  {
    match k
    case SourceVersion => SourceField
    case ProcessingScriptVersion => ProcessingScriptField
    case DataProductVersion => DataProductField
    case ModelVersion => ModelField
  }

  /** The kind a versioned kind is a version of. */
  function ParentKind(k: Kind): Kind
    requires IsVersioned(k)
  {
    match k
    case SourceVersion => Source
    case ProcessingScriptVersion => ProcessingScript
    case DataProductVersion => DataProduct
    case ModelVersion => Model
  }

  /** `VERSIONED_OBJECT` names one of the kind's own non-null foreign keys, to
      its parent kind, whose reverse accessor is `versions`; the parent is an
      unversioned DataObject kind with a stored name. */
  lemma VersionedObjectIsParentKey(k: Kind)
    requires IsVersioned(k)
    ensures VersionedObject(k) in ForeignKeys(k)
    ensures ForeignKeys(k)[VersionedObject(k)] == ForeignKey(ParentKind(k), false, Versions)
    ensures IsDataObject(ParentKind(k)) && !IsVersioned(ParentKind(k)) && HasStoredName(ParentKind(k))
    ensures VersionedObject(k) != Supersedes
  {
  }

  /** Every versioned kind, and `ModelRun`, has a nullable `supersedes` key
      to its own kind; no other kind does, and no other key is nullable. */
  lemma SupersedesIsSelfReference(k: Kind)
    ensures Supersedes in ForeignKeys(k) <==> IsVersioned(k) || k == ModelRun
    ensures Supersedes in ForeignKeys(k) ==>
              ForeignKeys(k)[Supersedes].target == k && ForeignKeys(k)[Supersedes].nullable
    ensures forall f :: f in ForeignKeys(k) && ForeignKeys(k)[f].nullable ==> f == Supersedes
  {
  }

  /** `REQUIRED_FIELDS` asks for `name` exactly where a name is not derived
      from a parent version; for ModelRun the requirement is met by the
      computed name. */
  lemma RequiredFieldsCharacterisation(k: Kind)
    ensures "name" in RequiredFields(k) <==> HasStoredName(k) || k == ModelRun
    ensures RequiredFields(k) == [] <==> IsVersioned(k)
  {
  }

  /** `EXTRA_DISPLAY_FIELDS`. */
  function ExtraDisplayFields(k: Kind): seq<RelatedName> {
    match k
    case DataProduct => [Versions]
    case ProcessingScript => [Versions]
    case DataProductVersion => [Components, ModelRuns]
    case DataProductVersionComponent => [ModelRuns]
    case Model => [Versions]
    case ModelVersion => [ModelRuns]
    case _ => []
  }

  /** `rel` is a reverse accessor on `target`: the related name of some
      kind's foreign key or many-to-many field pointing at `target`. */
  ghost predicate IsReverseRelation(target: Kind, rel: RelatedName) {
    || (exists from: Kind, f: Field :: f in ForeignKeys(from) && ForeignKeys(from)[f].target == target
          && ForeignKeys(from)[f].relatedName == rel)
    || (exists from: Kind, f: Field :: f in ManyToManyFields(from) && ManyToManyFields(from)[f].target == target
          && ManyToManyFields(from)[f].relatedName == rel)
  }

  /** Every extra display field a kind names is one of its reverse relations. */
  lemma ExtraDisplayFieldsResolve(k: Kind)
    ensures forall i :: 0 <= i < |ExtraDisplayFields(k)| ==> IsReverseRelation(k, ExtraDisplayFields(k)[i])
  {
    match k
    case DataProduct => assert DataProductField in ForeignKeys(DataProductVersion);
    case ProcessingScript => assert ProcessingScriptField in ForeignKeys(ProcessingScriptVersion);
    case Model => assert ModelField in ForeignKeys(ModelVersion);
    case DataProductVersion =>
      assert DataProductVersionField in ForeignKeys(DataProductVersionComponent);
      assert Outputs in ManyToManyFields(ModelRun);
    case DataProductVersionComponent => assert Inputs in ManyToManyFields(ModelRun);
    case ModelVersion => assert ModelVersionField in ForeignKeys(ModelRun);
    case _ =>
  }

  // ---------------------------------------------------------------------
  // Default ordering: Meta classes and their inheritance

  datatype OrderTerm = Ascending(field: string) | Descending(field: string)

  /** The `Meta` a class declares itself, if any (`ordering` absent is `[]`). */
  function DeclaredMetaOrdering(c: PyClass): Option<seq<OrderTerm>> {
    match c
    case AbstractClass(BaseModel) => Some([Ascending("name"), Descending("last_updated")])
    case AbstractClass(_) => Some([])
    case _ => None
  }

  /** The ordering a class ends up with: a class that declares no `Meta`
      inherits its abstract parent's; one that declares a `Meta` not derived
      from the parent's keeps only what it declares. */
  function EffectiveOrdering(c: PyClass): seq<OrderTerm>
    decreases Depth(c)
  {
    match DeclaredMetaOrdering(c)
    case Some(o) => o
    case None => if Superclass(c).Some? then EffectiveOrdering(Superclass(c).value) else []
  }

  /** Only the direct BaseModel subclasses are ordered by name ascending and
      then last update descending; DataObject kinds have no default order. */
  lemma DefaultOrderingByKind(k: Kind)
    ensures EffectiveOrdering(ConcreteClass(k)) ==
            (if IsDataObject(k) then [] else [Ascending("name"), Descending("last_updated")])
    ensures !IsDataObject(k) <==> Superclass(ConcreteClass(k)) == Some(AbstractClass(BaseModel))
  {
  }
}
