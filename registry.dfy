/** The module namespace of data_management/models.py and the two
    registries computed from it at import time, `all_models` and
    `all_object_models`. */
module Registry {

  import opened Text
  import opened Kinds

  /** Every class bound at module level of data_management/models.py:
      the imported classes, the three abstract bases, `URIField` and the 18
      concrete kinds. */
  const DeclaredClasses: set<PyClass> :=
    {ForeignClass("GenericForeignKey"), ForeignClass("GenericRelation"),
     ForeignClass("ContentType"), ForeignClass("ModelFieldRequiredMixin"),
     ForeignClass("URIField"),
     AbstractClass(BaseModel), AbstractClass(DataObject), AbstractClass(DataObjectVersion)}
    + set k | k in AllKinds :: ConcreteClass(k)

  /** Looks a declared class up by its name; the inverse of `ClassName`. */
  function ClassNamed(s: string): (r: Option<PyClass>)
    ensures r.Some? ==> ClassName(r.value) == s
  {
    match KindNamed(s)
    case Some(k) => Some(ConcreteClass(k))
    case None =>
      var n := |s|;
      if n == 8 then (if s == "URIField" then Some(ForeignClass("URIField")) else None)
      else if n == 9 then (if s == "BaseModel" then Some(AbstractClass(BaseModel)) else None)
      else if n == 10 then (if s == "DataObject" then Some(AbstractClass(DataObject)) else None)
      else if n == 11 then (if s == "ContentType" then Some(ForeignClass("ContentType")) else None)
      else if n == 15 then (if s == "GenericRelation" then Some(ForeignClass("GenericRelation")) else None)
      else if n == 17 then
        (if s == "GenericForeignKey" then Some(ForeignClass("GenericForeignKey"))
         else if s == "DataObjectVersion" then Some(AbstractClass(DataObjectVersion))
         else None)
      else if n == 23 then
        (if s == "ModelFieldRequiredMixin" then Some(ForeignClass("ModelFieldRequiredMixin")) else None)
      else None
  }

  lemma ClassNameRoundTrip(c: PyClass)
    requires c in DeclaredClasses
    ensures ClassNamed(ClassName(c)) == Some(c)
  {
    if c.ConcreteClass? {
      KindNameRoundTrip(c.kind);
    }
  }

  /** No two declared classes share a name. */
  lemma DeclaredClassNamesDistinct()
    ensures forall c, d :: c in DeclaredClasses && d in DeclaredClasses && ClassName(c) == ClassName(d) ==> c == d
  {
    forall c, d | c in DeclaredClasses && d in DeclaredClasses && ClassName(c) == ClassName(d)
      ensures c == d
    {
      ClassNameRoundTrip(c);
      ClassNameRoundTrip(d);
    }
  }

  /** The module-level bindings that are not classes: the attributes Python
      gives every module loaded from a file, and the imported modules. */
  function OtherBindings(): map<string, PyValue> {
    map["__name__" := OtherValue, "__doc__" := OtherValue, "__package__" := OtherValue,
        "__loader__" := OtherValue, "__spec__" := OtherValue, "__file__" := OtherValue,
        "__cached__" := OtherValue, "__builtins__" := OtherValue,
        "settings" := OtherValue, "models" := OtherValue, "validators" := OtherValue,
        "uuid" := OtherValue]
  }

  /** The module-level names the declared classes are bound under. */
  const ClassNames: set<string> := set c | c in DeclaredClasses :: ClassName(c)

  /** The value a class name is bound to. */
  function ClassValue(n: string): PyValue {
    match ClassNamed(n)
    case Some(c) => TypeValue(c)
    case None => OtherValue
  }

  /** The bindings made by `class` statements and class imports: each class
      under its own `__name__`. */
  function ClassBindings(): map<string, PyValue> {
    map n | n in ClassNames :: ClassValue(n)
  }

  lemma ClassNamesNamed(n: string)
    requires n in ClassNames
    ensures ClassNamed(n).Some? && ClassNamed(n).value in DeclaredClasses
  {
    var c :| c in DeclaredClasses && ClassName(c) == n;
    ClassNameRoundTrip(c);
  }

  lemma ClassBindingAt(c: PyClass)
    requires c in DeclaredClasses
    ensures ClassName(c) in ClassBindings() && ClassBindings()[ClassName(c)] == TypeValue(c)
  {
    ClassNameRoundTrip(c);
  }

  lemma ClassBindingNamed(n: string)
    requires n in ClassBindings()
    ensures ClassNamed(n).Some? && ClassNamed(n).value in DeclaredClasses
    ensures ClassBindings()[n] == TypeValue(ClassNamed(n).value)
  {
    ClassNamesNamed(n);
  }

  /** `globals()` of data_management/models.py once its last class is defined. */
  function Globals(): map<string, PyValue> {
    OtherBindings() + ClassBindings()
  }

  /** The filter of `all_object_models`. */
  predicate SelectsObjectModel(name: string, v: PyValue) {
    v.TypeValue? && IsSubclass(v.cls, AbstractClass(DataObject))
    && name !in {"DataObject", "DataObjectVersion"}
  }

  /** The filter of `all_models`. */
  predicate SelectsModel(name: string, v: PyValue) {
    v.TypeValue? && IsSubclass(v.cls, AbstractClass(BaseModel))
    && name !in {"BaseModel", "DataObject", "DataObjectVersion"}
  }

  /** `all_object_models`, as the comprehension over the namespace. */
  function AllObjectModels(): map<string, PyClass> {
    var g := Globals();
    map n | n in g && SelectsObjectModel(n, g[n]) :: g[n].cls
  }

  /** `all_models`, as the comprehension over the namespace. */
  function AllModels(): map<string, PyClass> {
    var g := Globals();
    map n | n in g && SelectsModel(n, g[n]) :: g[n].cls
  }

  /** A name bound to a class is bound to a declared class of that name. */
  lemma GlobalClassBinding(n: string)
    requires n in Globals() && Globals()[n].TypeValue?
    ensures n in ClassBindings()
    ensures Globals()[n].cls in DeclaredClasses && ClassName(Globals()[n].cls) == n
  {
    if n in ClassBindings() {
      ClassBindingNamed(n);
    }
  }

  /** A module-level name is bound to a class exactly when it is the name of
      a declared class; with `GlobalClassBinding`, it is then bound to that
      class. */
  lemma GlobalTypeNames(n: string)
    ensures (n in Globals() && Globals()[n].TypeValue?) <==> n in ClassNames
  {
    if n in ClassNames {
      ClassNamesNamed(n);
      assert n in ClassBindings();
    } else if n in Globals() && Globals()[n].TypeValue? {
      GlobalClassBinding(n);
    }
  }

  /** A concrete kind is bound under its class name, and that name is none
      of the abstract bases' names. */
  lemma KindBinding(k: Kind)
    ensures KindName(k) in Globals() && Globals()[KindName(k)] == TypeValue(ConcreteClass(k))
    ensures KindName(k) !in {"BaseModel", "DataObject", "DataObjectVersion"}
  {
    AllKindsComplete(k);
    ClassBindingAt(ConcreteClass(k));
    KindNameNotAbstract(k);
  }

  lemma KindNameNotAbstract(k: Kind)
    ensures KindName(k) !in {"BaseModel", "DataObject", "DataObjectVersion"}
  {
    KindNameRoundTrip(k);
    assert KindNamed("BaseModel") == None;
    assert KindNamed("DataObject") == None;
    assert KindNamed("DataObjectVersion") == None;
  }

  /** `all_object_models` holds exactly the concrete DataObject kinds, each
      under its class name; no abstract base and nothing outside the hierarchy. */
  lemma AllObjectModelsExact()
    ensures forall k :: IsDataObject(k) <==> KindName(k) in AllObjectModels()
    ensures forall k :: IsDataObject(k) ==> AllObjectModels()[KindName(k)] == ConcreteClass(k)
    ensures forall n :: n in AllObjectModels() ==>
              AllObjectModels()[n].ConcreteClass? && KindName(AllObjectModels()[n].kind) == n
  {
    forall k
      ensures IsDataObject(k) <==> KindName(k) in AllObjectModels()
      ensures IsDataObject(k) ==> AllObjectModels()[KindName(k)] == ConcreteClass(k)
    {
      ObjectModelEntry(k);
    }
    forall n | n in AllObjectModels()
      ensures AllObjectModels()[n].ConcreteClass? && KindName(AllObjectModels()[n].kind) == n
    {
      ObjectModelNamed(n);
    }
  }

  lemma ObjectModelEntry(k: Kind)
    ensures IsDataObject(k) <==> KindName(k) in AllObjectModels()
    ensures IsDataObject(k) ==> AllObjectModels()[KindName(k)] == ConcreteClass(k)
  {
    KindBinding(k);
    SubclassCharacterisation(ConcreteClass(k));
  }

  lemma ObjectModelNamed(n: string)
    requires n in AllObjectModels()
    ensures AllObjectModels()[n].ConcreteClass? && KindName(AllObjectModels()[n].kind) == n
  {
    GlobalClassBinding(n);
  }

  /** `all_models` holds exactly the 18 concrete kinds, each under its class name. */
  lemma AllModelsExact()
    ensures forall k :: KindName(k) in AllModels() && AllModels()[KindName(k)] == ConcreteClass(k)
    ensures forall n :: n in AllModels() ==>
              AllModels()[n].ConcreteClass? && KindName(AllModels()[n].kind) == n
  {
    forall k ensures KindName(k) in AllModels() && AllModels()[KindName(k)] == ConcreteClass(k) {
      ModelEntry(k);
    }
    forall n | n in AllModels()
      ensures AllModels()[n].ConcreteClass? && KindName(AllModels()[n].kind) == n
    {
      ModelNamed(n);
    }
  }

  lemma ModelEntry(k: Kind)
    ensures KindName(k) in AllModels() && AllModels()[KindName(k)] == ConcreteClass(k)
  {
    KindBinding(k);
    SubclassCharacterisation(ConcreteClass(k));
  }

  lemma ModelNamed(n: string)
    requires n in AllModels()
    ensures AllModels()[n].ConcreteClass? && KindName(AllModels()[n].kind) == n
  {
    GlobalClassBinding(n);
  }

  /** The names of `Issue` and of the six reference kinds. */
  const NonObjectModelNames: set<string> :=
    {"Issue", "DataProductType", "StorageType", "StorageRoot", "Accessibility",
     "SourceType", "DataProductDataType"}

  /** The registry of object kinds is part of the registry of all kinds, with
      the same class under each shared name; the difference is `Issue` and
      the six reference kinds. */
  lemma ObjectModelsWithinModels()
    ensures AllObjectModels().Keys <= AllModels().Keys
    ensures forall n :: n in AllObjectModels() ==> AllModels()[n] == AllObjectModels()[n]
    ensures AllModels().Keys - AllObjectModels().Keys == NonObjectModelNames
  {
    ObjectModelsAgree();
    RegistryDifferenceWithin();
    RegistryDifferenceCovers();
  }

  lemma ObjectModelsAgree()
    ensures AllObjectModels().Keys <= AllModels().Keys
    ensures forall n :: n in AllObjectModels() ==> AllModels()[n] == AllObjectModels()[n]
  {
    AllObjectModelsExact();
    AllModelsExact();
  }

  lemma RegistryDifferenceWithin()
    ensures AllModels().Keys - AllObjectModels().Keys <= NonObjectModelNames
  {
    AllObjectModelsExact();
    AllModelsExact();
    forall n | n in AllModels() && n !in AllObjectModels()
      ensures n in NonObjectModelNames
    {
      var k := AllModels()[n].kind;
      assert KindName(k) == n;
      assert !IsDataObject(k);
      match k
      case Issue =>
      case DataProductType =>
      case StorageType =>
      case StorageRoot =>
      case Accessibility =>
      case SourceType =>
      case DataProductDataType =>
    }
  }

  lemma RegistryDifferenceCovers()
    ensures NonObjectModelNames <= AllModels().Keys - AllObjectModels().Keys
  {
    AllObjectModelsExact();
    AllModelsExact();
    var r, o := AllModels(), AllObjectModels();
    forall n | n in NonObjectModelNames
      ensures n in r && n !in o
    {
      NonObjectNameIsKind(n);
    }
  }

  lemma NonObjectNameIsKind(n: string)
    requires n in NonObjectModelNames
    ensures KindNamed(n).Some? && !IsDataObject(KindNamed(n).value) && KindName(KindNamed(n).value) == n
  {
  }

  /** No entry of `all_object_models` holds a class outside the object kinds. */
  lemma ObjectModelValue(k: Kind, n: string)
    requires !IsDataObject(k) && n in AllObjectModels()
    ensures AllObjectModels()[n] != ConcreteClass(k)
  {
    ObjectModelNamed(n);
    KindNameInjective(k, AllObjectModels()[n].kind);
  }

  /** `Issue` is registered as a model but not as an object model. */
  lemma IssueIsNotAnObjectModel()
    ensures "Issue" in AllModels() && "Issue" !in AllObjectModels()
  {
    ObjectModelEntry(Issue);
    ModelEntry(Issue);
    assert KindName(Issue) == "Issue";
  }
}
