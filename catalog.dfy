/** A small in-memory catalog built from the constraints data_management/models.py
    declares: every row of a kind is keyed by (kind, id); stored names are
    required and unique within their table; every foreign key resolves and
    is `on_delete=CASCADE`, `supersedes` included; an Issue points at any
    (kind, id) pair and is deleted with its target when the target is a
    DataObject (through the `GenericRelation` DataObject declares). */
module Catalog {

  import opened Text
  import opened Kinds
  import opened Names

  /** A row's key: its table and its primary key. */
  datatype Ref = Ref(kind: Kind, id: nat)

  /** The non-relational part of a row that the model keeps. */
  datatype Value =
    | Named(name: string)
    | Versioned(versionIdentifier: string)
    | Run(releaseDate: Date)
    | IssueValue(name: string, target: Ref, severity: nat, desc: string)

  /** A row: its value, its foreign keys (field to the target's id) and its
      many-to-many links (field to the targets' ids). */
  datatype Row = Row(value: Value, fks: map<Field, nat>, links: map<Field, set<nat>>)

  type Db = map<Ref, Row>

  /** The attributes an error can be about. */
  datatype Attribute = NameAttr | VersionIdentifierAttr | ReleaseDateAttr | DescAttr | SeverityAttr | RelationAttr(field: Field)

  datatype CatalogError =
    | NotFound(ref: Ref)              // no row with that key
    | UnexpectedField                 // the row does not have the kind's shape
    | Required(attr: Attribute)       // a required value is missing or blank
    | Invalid(attr: Attribute)        // a value is out of range or too long
    | NotUnique(attr: Attribute)      // a unique value is taken
    | Dangling(attr: Attribute)       // a reference does not resolve
    | ComputedName                    // the name is a read-only property

  datatype Result<T> = Ok(value: T) | Err(error: CatalogError)

  /** `max_length` of the name and version identifier columns, and of `desc`. */
  const NameMaxLength := 255
  const DescMaxLength := 1024
  /** The largest value a `PositiveSmallIntegerField` accepts. */
  const SeverityMax := 32767
  /** The `default` of `Issue.severity`. */
  const DefaultSeverity := 1

  // ---------------------------------------------------------------------
  // Well-formed rows and valid catalogs

  /** The value constructor a kind's rows use. */
  predicate ShapeMatches(k: Kind, v: Value) {
    if k == Issue then v.IssueValue?
    else if IsVersioned(k) then v.Versioned?
    else if k == ModelRun then v.Run?
    else v.Named?
  }

  /** The stored `name` column, for the kinds that have one. */
  function StoredName(v: Value): Option<string> {
    match v
    case Named(n) => Some(n)
    case IssueValue(n, _, _, _) => Some(n)
    case _ => None
  }

  lemma StoredNameByKind(k: Kind, v: Value)
    requires ShapeMatches(k, v)
    ensures StoredName(v).Some? <==> HasStoredName(k)
  {
  }

  /** The row has the kind's shape: every foreign key it sets is declared,
      every non-null one is set, and every link is declared. */
  predicate WellFormed(k: Kind, row: Row) {
    && ShapeMatches(k, row.value)
    && row.fks.Keys <= ForeignKeys(k).Keys
    && (forall f :: f in ForeignKeys(k) && !ForeignKeys(k)[f].nullable ==> f in row.fks)
    && row.links.Keys <= ManyToManyFields(k).Keys
  }

  function FkRef(k: Kind, row: Row, f: Field): Ref
    requires f in row.fks && f in ForeignKeys(k)
  {
    Ref(ForeignKeys(k)[f].target, row.fks[f])
  }

  function LinkRef(k: Kind, f: Field, id: nat): Ref
    requires f in ManyToManyFields(k)
  {
    Ref(ManyToManyFields(k)[f].target, id)
  }

  /** Every reference the row holds is a row of the catalog. */
  predicate Resolves(db: Db, k: Kind, row: Row)
    requires WellFormed(k, row)
  {
    && (forall f :: f in row.fks ==> FkRef(k, row, f) in db)
    && (forall f, id :: f in row.links && id in row.links[f] ==> LinkRef(k, f, id) in db)
  }

  /** No two rows of one table share a stored name. */
  predicate UniqueNames(db: Db) {
    forall a, b :: a in db && b in db && a.kind == b.kind && a != b && StoredName(db[a].value).Some?
      ==> StoredName(db[a].value) != StoredName(db[b].value)
  }

  /** The catalog's invariant: rows are well formed and hold values that
      pass field validation, nothing dangles but issue targets, and names
      are unique per table. */
  predicate Consistent(db: Db) {
    && (forall r :: r in db ==> RowOk(db, r.kind, db[r]))
    && UniqueNames(db)
  }

  /** One row of the invariant: well formed, resolving and validated. */
  predicate RowOk(db: Db, k: Kind, row: Row) {
    WellFormed(k, row) && Resolves(db, k, row) && ValueError(k, row.value).None?
  }

  /** A row keeps satisfying the invariant when the catalog grows and the row
      keeps its keys, its links and a valid value of the same shape. */
  lemma RowFramed(db: Db, db': Db, k: Kind, row: Row, row': Row)
    requires RowOk(db, k, row) && db.Keys <= db'.Keys
    requires row'.fks == row.fks && row'.links == row.links
    requires ShapeMatches(k, row'.value) && ValueError(k, row'.value).None?
    ensures RowOk(db', k, row')
  {
  }

  // ---------------------------------------------------------------------
  // Derived names

  /** The parent a version names through `VERSIONED_OBJECT`. */
  function ParentRef(k: Kind, row: Row): Option<Ref>
    requires IsVersioned(k)
  {
    var f := VersionedObject(k);
    if f in row.fks then Some(Ref(ParentKind(k), row.fks[f])) else None
  }

  /** The name of a versioned row, read through its parent on every call;
      a parent that does not resolve is an error. */
  function VersionNameOf(db: Db, r: Ref): (res: Result<string>)
    ensures res.Ok? ==> r in db && IsVersioned(r.kind) && db[r].value.Versioned?
                        && ParentRef(r.kind, db[r]).Some? && ParentRef(r.kind, db[r]).value in db
                        && db[ParentRef(r.kind, db[r]).value].value.Named?
  {
    if r !in db then Err(NotFound(r))
    else if !IsVersioned(r.kind) || !db[r].value.Versioned? then Err(UnexpectedField)
    else match ParentRef(r.kind, db[r])
      case None => Err(Dangling(RelationAttr(VersionedObject(r.kind))))
      case Some(p) =>
        if p in db && db[p].value.Named?
        then Ok(VersionName(db[p].value.name, db[r].value.versionIdentifier))
        else Err(Dangling(RelationAttr(VersionedObject(r.kind))))
  }

  /** `str(row)`'s underlying `name`: stored, or derived for versions and runs. */
  function NameOf(db: Db, r: Ref): Result<string> {
    if r !in db then Err(NotFound(r))
    else match db[r].value
      case Named(n) => Ok(n)
      case IssueValue(n, _, _, _) => Ok(n)
      case Versioned(_) => VersionNameOf(db, r)
      case Run(date) =>
        if ModelVersionField in db[r].fks then
          match VersionNameOf(db, Ref(ModelVersion, db[r].fks[ModelVersionField]))
          case Ok(mv) => Ok(RunName(mv, date))
          case Err(e) => Err(e)
        else Err(Dangling(RelationAttr(ModelVersionField)))
  }

  /** `str(row)`: the name, or for an Issue its label with the severity. */
  function Display(db: Db, r: Ref): Result<string> {
    if r in db && db[r].value.IssueValue?
    then Ok(IssueLabel(db[r].value.name, db[r].value.severity))
    else NameOf(db, r)
  }

  /** In a valid catalog a version's name is its parent's name followed by
      its version identifier. */
  lemma VersionNameReadsParent(db: Db, r: Ref)
    requires Consistent(db) && r in db && IsVersioned(r.kind)
    ensures ParentRef(r.kind, db[r]).Some?
    ensures var p := ParentRef(r.kind, db[r]).value;
      && p in db && db[p].value.Named?
      && NameOf(db, r) == Ok(VersionName(db[p].value.name, db[r].value.versionIdentifier))
  {
    VersionedObjectIsParentKey(r.kind);
    var f := VersionedObject(r.kind);
    assert f in db[r].fks;
    assert FkRef(r.kind, db[r], f) == ParentRef(r.kind, db[r]).value;
  }

  /** A run's model version resolves to a version row. */
  lemma RunModelVersionResolves(db: Db, r: Ref)
    requires Consistent(db) && r in db && r.kind == ModelRun
    ensures db[r].value.Run? && ModelVersionField in db[r].fks
    ensures Ref(ModelVersion, db[r].fks[ModelVersionField]) in db
  {
    assert RowOk(db, ModelRun, db[r]);
    RunRowResolves(db, db[r]);
  }

  lemma RunRowResolves(db: Db, row: Row)
    requires WellFormed(ModelRun, row) && Resolves(db, ModelRun, row)
    ensures row.value.Run? && ModelVersionField in row.fks
    ensures Ref(ModelVersion, row.fks[ModelVersionField]) in db
  {
    assert ModelVersionField in ForeignKeys(ModelRun) && !ForeignKeys(ModelRun)[ModelVersionField].nullable;
    assert FkRef(ModelRun, row, ModelVersionField) == Ref(ModelVersion, row.fks[ModelVersionField]);
  }

  /** In a valid catalog a run's name is its model version's name followed
      by the release date; with `VersionNameReadsParent` that is the model's
      name, the version identifier and the date. */
  lemma RunNameReadsModel(db: Db, r: Ref)
    requires Consistent(db) && r in db && r.kind == ModelRun
    ensures db[r].value.Run? && ModelVersionField in db[r].fks
    ensures var mv := Ref(ModelVersion, db[r].fks[ModelVersionField]);
      && mv in db && NameOf(db, mv).Ok?
      && NameOf(db, r) == Ok(RunName(NameOf(db, mv).value, db[r].value.releaseDate))
  {
    RunModelVersionResolves(db, r);
    var mv := Ref(ModelVersion, db[r].fks[ModelVersionField]);
    VersionNameReadsParent(db, mv);
    RunNameFromVersion(db, r);
  }

  /** Every stored run carries a date a `datetime.date` can hold. */
  lemma StoredRunDateValid(db: Db, r: Ref)
    requires Consistent(db) && r in db && db[r].value.Run?
    ensures ValidDate(db[r].value.releaseDate)
  {
    assert RowOk(db, r.kind, db[r]);
  }

  /** Two stored runs of one model version are named alike exactly when
      they share their release date. */
  lemma RunNamesSeparateDates(db: Db, a: Ref, b: Ref)
    requires Consistent(db) && a in db && b in db && a.kind == ModelRun && b.kind == ModelRun
    requires ModelVersionField in db[a].fks && ModelVersionField in db[b].fks
    requires db[a].fks[ModelVersionField] == db[b].fks[ModelVersionField]
    ensures db[a].value.Run? && db[b].value.Run?
    ensures NameOf(db, a) == NameOf(db, b) <==> db[a].value.releaseDate == db[b].value.releaseDate
  {
    RunNameReadsModel(db, a);
    RunNameReadsModel(db, b);
    StoredRunDateValid(db, a);
    StoredRunDateValid(db, b);
    var mv := Ref(ModelVersion, db[a].fks[ModelVersionField]);
    RunNameInjective(NameOf(db, mv).value, db[a].value.releaseDate, db[b].value.releaseDate);
  }

  lemma RunNameFromVersion(db: Db, r: Ref)
    requires r in db && db[r].value.Run? && ModelVersionField in db[r].fks
    requires NameOf(db, Ref(ModelVersion, db[r].fks[ModelVersionField])).Ok?
    requires db[Ref(ModelVersion, db[r].fks[ModelVersionField])].value.Versioned?
    ensures NameOf(db, r)
            == Ok(RunName(NameOf(db, Ref(ModelVersion, db[r].fks[ModelVersionField])).value, db[r].value.releaseDate))
  {
  }

  /** Every row of a valid catalog has a name. */
  lemma NameTotal(db: Db, r: Ref)
    requires Consistent(db) && r in db
    ensures NameOf(db, r).Ok? && Display(db, r).Ok?
  {
    if IsVersioned(r.kind) {
      VersionNameReadsParent(db, r);
    } else if r.kind == ModelRun {
      RunNameReadsModel(db, r);
    }
  }

  /** A row the catalog does not hold has no name, and a version whose parent
      does not resolve has none either: both are errors, not defaults. */
  lemma MissingParentIsAnError(db: Db, r: Ref)
    requires r in db && IsVersioned(r.kind) && db[r].value.Versioned?
    requires ParentRef(r.kind, db[r]).None? || ParentRef(r.kind, db[r]).value !in db
    ensures NameOf(db, r) == Err(Dangling(RelationAttr(VersionedObject(r.kind))))
  {
  }

  // ---------------------------------------------------------------------
  // Creating rows

  /** The first reason the row cannot be stored as a new row of kind `k`:
      the checks on the row itself, then its references, then uniqueness. */
  function CreateError(db: Db, k: Kind, row: Row): (e: Option<CatalogError>)
    ensures e.None? ==> WellFormed(k, row)
    ensures e.None? <==> && WellFormed(k, row) && ValueError(k, row.value).None?
                         && Resolves(db, k, row) && UniqueError(db, k, row.value).None?
  {
    if RowError(k, row).Some? then RowError(k, row)
    else if ReferenceError(db, k, row).Some? then ReferenceError(db, k, row)
    else UniqueError(db, k, row.value)
  }

  /** The checks that need no other row: the kind's shape, its required
      keys, and field validation. */
  function RowError(k: Kind, row: Row): (e: Option<CatalogError>)
    ensures e.None? <==> WellFormed(k, row) && ValueError(k, row.value).None?
  {
    if !ShapeMatches(k, row.value) || !(row.fks.Keys <= ForeignKeys(k).Keys)
       || !(row.links.Keys <= ManyToManyFields(k).Keys)
    then Some(UnexpectedField)
    else if MissingRequired(k, row, AllFields).Some?
    then Some(Required(RelationAttr(MissingRequired(k, row, AllFields).value)))
    else
      assert WellFormed(k, row) by {
        forall f | f in ForeignKeys(k) && !ForeignKeys(k)[f].nullable ensures f in row.fks {
          AllFieldsComplete(f);
        }
      }
      ValueError(k, row.value)
  }

  /** Field validation of the stored values. */
  function ValueError(k: Kind, v: Value): Option<CatalogError> {
    match v
    case Named(n) => NameError(n)
    case Versioned(vid) =>
      if vid == "" then Some(Required(VersionIdentifierAttr))
      else if |vid| > NameMaxLength then Some(Invalid(VersionIdentifierAttr))
      else None
    case Run(date) => if ValidDate(date) then None else Some(Invalid(ReleaseDateAttr))
    case IssueValue(n, _, severity, desc) =>
      if NameError(n).Some? then NameError(n)
      else if desc == "" then Some(Required(DescAttr))
      else if |desc| > DescMaxLength then Some(Invalid(DescAttr))
      else if severity > SeverityMax then Some(Invalid(SeverityAttr))
      else None
  }

  /** `name` is required, not blank and at most 255 characters. */
  function NameError(n: string): (e: Option<CatalogError>)
    ensures e.None? <==> 0 < |n| <= NameMaxLength
  {
    if n == "" then Some(Required(NameAttr))
    else if |n| > NameMaxLength then Some(Invalid(NameAttr))
    else None
  }

  /** Every relational field, in the order the checks visit them. */
  const AllFields: seq<Field> := [
    TypeField, StoreRoot, Store, SourceTypeField, SourceField, AccessibilityField,
    Supersedes, ProcessingScriptField, DataProductField, DataType,
    ProcessingScriptVersionField, DataProductVersionField, ModelField, ModelVersionField,
    SourceVersions, Inputs, Outputs]

  lemma AllFieldsComplete(f: Field)
    ensures f in AllFields
  {
  }

  /** The first field of `fs` that the kind requires and the row leaves unset. */
  function MissingRequired(k: Kind, row: Row, fs: seq<Field>): (m: Option<Field>)
    ensures m.Some? ==> m.value in fs && m.value in ForeignKeys(k) && !ForeignKeys(k)[m.value].nullable && m.value !in row.fks
    ensures m.None? ==> forall f :: f in fs && f in ForeignKeys(k) && !ForeignKeys(k)[f].nullable ==> f in row.fks
  {
    if fs == [] then None
    else if fs[0] in ForeignKeys(k) && !ForeignKeys(k)[fs[0]].nullable && fs[0] !in row.fks then Some(fs[0])
    else MissingRequired(k, row, fs[1..])
  }

  /** The field's references that do not resolve. */
  predicate DanglesAt(db: Db, k: Kind, row: Row, f: Field)
    requires WellFormed(k, row)
  {
    || (f in row.fks && FkRef(k, row, f) !in db)
    || (f in row.links && exists id :: id in row.links[f] && LinkRef(k, f, id) !in db)
  }

  /** The first field of `fs` holding a reference that does not resolve. */
  function FirstDangling(db: Db, k: Kind, row: Row, fs: seq<Field>): (d: Option<Field>)
    requires WellFormed(k, row)
    ensures d.Some? ==> d.value in fs && DanglesAt(db, k, row, d.value)
    ensures d.None? ==> forall f :: f in fs ==> !DanglesAt(db, k, row, f)
  {
    if fs == [] then None
    else if DanglesAt(db, k, row, fs[0]) then Some(fs[0])
    else FirstDangling(db, k, row, fs[1..])
  }

  /** A foreign key or link of the new row that does not resolve. */
  function ReferenceError(db: Db, k: Kind, row: Row): (e: Option<CatalogError>)
    requires WellFormed(k, row)
    ensures e.None? <==> Resolves(db, k, row)
  {
    var d := FirstDangling(db, k, row, AllFields);
    if d.None? then
      assert Resolves(db, k, row) by {
        forall f | f in row.fks ensures FkRef(k, row, f) in db {
          AllFieldsComplete(f);
          assert !DanglesAt(db, k, row, f);
        }
        forall f, id | f in row.links && id in row.links[f] ensures LinkRef(k, f, id) in db {
          AllFieldsComplete(f);
          assert !DanglesAt(db, k, row, f);
        }
      }
      None
    else Some(Dangling(RelationAttr(d.value)))
  }

  /** The stored name is already taken in the kind's table. */
  function UniqueError(db: Db, k: Kind, v: Value): (e: Option<CatalogError>)
    ensures e.None? <==> (StoredName(v).None? || forall r :: r in db && r.kind == k ==> StoredName(db[r].value) != StoredName(v))
  {
    if StoredName(v).Some? && exists r :: r in db && r.kind == k && StoredName(db[r].value) == StoredName(v)
    then Some(NotUnique(NameAttr))
    else None
  }

  /** `REQUIRED_FIELDS`: a create with a blank name is refused, and an
      accepted row carries a non-blank name of its own exactly when its kind
      lists `name` and stores one (ModelRun lists it but computes it). */
  lemma RequiredNameEnforced(db: Db, k: Kind, row: Row)
    ensures StoredName(row.value) == Some("") ==> CreateError(db, k, row).Some?
    ensures CreateError(db, k, row).None? ==>
              ((StoredName(row.value).Some? && StoredName(row.value).value != "")
               <==> ("name" in RequiredFields(k) && HasStoredName(k)))
  {
    RequiredFieldsCharacterisation(k);
    if CreateError(db, k, row).None? {
      StoredNameByKind(k, row.value);
    }
  }

  /** Uniqueness covers stored names only: a copy of a version or of a run
      under a fresh id passes every check, keeps the catalog valid, and has
      the same derived name as the row it copies. */
  lemma DerivedNameCopyAccepted(db: Db, r: Ref, id: nat)
    requires Consistent(db) && r in db && !HasStoredName(r.kind) && Ref(r.kind, id) !in db
    ensures CreateError(db, r.kind, db[r]).None?
    ensures Consistent(db[Ref(r.kind, id) := db[r]])
    ensures var db' := db[Ref(r.kind, id) := db[r]];
      NameOf(db', Ref(r.kind, id)).Ok? && NameOf(db', Ref(r.kind, id)) == NameOf(db', r)
  {
    assert RowOk(db, r.kind, db[r]);
    StoredNameByKind(r.kind, db[r].value);
    CreatePreservesConsistent(db, r.kind, id, db[r]);
    NameTotal(db[Ref(r.kind, id) := db[r]], Ref(r.kind, id));
    SameRowSameName(db[Ref(r.kind, id) := db[r]], Ref(r.kind, id), r);
  }

  /** A name is a function of the row and the catalog, not of the id. */
  lemma SameRowSameName(db: Db, a: Ref, b: Ref)
    requires a in db && b in db && a.kind == b.kind && db[a] == db[b]
    ensures NameOf(db, a) == NameOf(db, b)
  {
  }

  /** Adding a row that passes every check to a valid catalog under a fresh
      key keeps it valid. */
  lemma CreatePreservesConsistent(db: Db, k: Kind, id: nat, row: Row)
    requires Consistent(db) && Ref(k, id) !in db
    requires CreateError(db, k, row).None?
    ensures Consistent(db[Ref(k, id) := row])
  {
    var db' := db[Ref(k, id) := row];
    assert RowError(k, row).None? && ReferenceError(db, k, row).None? && UniqueError(db, k, row.value).None?;
    forall r | r in db' ensures RowOk(db', r.kind, db'[r]) {
      if r == Ref(k, id) {
        RowFramed(db, db', k, row, row);
      } else {
        RowFramed(db, db', r.kind, db[r], db[r]);
      }
    }
    NewNameKeepsUnique(db, k, id, row);
  }

  lemma NewNameKeepsUnique(db: Db, k: Kind, id: nat, row: Row)
    requires UniqueNames(db) && Ref(k, id) !in db && UniqueError(db, k, row.value).None?
    ensures UniqueNames(db[Ref(k, id) := row])
  {
  }

  /** Once a row is stored, a second row of the same kind with the same
      stored name is refused, and refused as a duplicate when nothing else
      is wrong with it. */
  lemma SecondNameRefused(db: Db, k: Kind, id: nat, row: Row, other: Row)
    requires StoredName(other.value) == StoredName(row.value)
    requires StoredName(row.value).Some?
    ensures CreateError(db[Ref(k, id) := row], k, other).Some?
    ensures CreateError(db, k, other).None? ==> CreateError(db[Ref(k, id) := row], k, other) == Some(NotUnique(NameAttr))
  {
    var db' := db[Ref(k, id) := row];
    NameTaken(db, Ref(k, id), row, other.value);
    if CreateError(db, k, other).None? {
      ReferenceErrorGrows(db, db', k, other);
    }
  }

  /** Once a row is stored, its stored name is taken in its table. */
  lemma NameTaken(db: Db, r: Ref, row: Row, v: Value)
    requires StoredName(v) == StoredName(row.value) && StoredName(v).Some?
    ensures UniqueError(db[r := row], r.kind, v) == Some(NotUnique(NameAttr))
  {
    assert r in db[r := row] && StoredName(db[r := row][r].value) == StoredName(v);
  }

  /** A row whose references resolve is not refused for its references in
      a larger catalog. */
  lemma ReferenceErrorGrows(db: Db, db': Db, k: Kind, row: Row)
    requires db.Keys <= db'.Keys && WellFormed(k, row) && ReferenceError(db, k, row).None?
    ensures ReferenceError(db', k, row).None?
  {
    ReferencesGrow(db, db', k, row);
  }

  /** A row whose references resolve keeps resolving in a larger catalog. */
  lemma ReferencesGrow(db: Db, db': Db, k: Kind, row: Row)
    requires db.Keys <= db'.Keys && WellFormed(k, row) && Resolves(db, k, row)
    ensures Resolves(db', k, row)
  {
  }

  // ---------------------------------------------------------------------
  // Renaming a row

  /** Setting a new stored name: refused for computed names (a property with
      no setter), blank or over-long names, and names taken in the table. */
  function RenameError(db: Db, r: Ref, newName: string): Option<CatalogError> {
    if r !in db then Some(NotFound(r))
    else if StoredName(db[r].value).None? then Some(ComputedName)
    else if NameError(newName).Some? then NameError(newName)
    else if exists o :: o in db && o.kind == r.kind && o != r && StoredName(db[o].value) == Some(newName)
    then Some(NotUnique(NameAttr))
    else None
  }

  function WithName(v: Value, newName: string): Value
    requires StoredName(v).Some?
  {
    match v
    case Named(_) => Named(newName)
    case IssueValue(_, t, s, d) => IssueValue(newName, t, s, d)
  }

  function Renamed(db: Db, r: Ref, newName: string): Db
    requires r in db && StoredName(db[r].value).Some?
  {
    db[r := db[r].(value := WithName(db[r].value, newName))]
  }

  lemma RenamePreservesConsistent(db: Db, r: Ref, newName: string)
    requires Consistent(db) && RenameError(db, r, newName).None?
    ensures Renamed(db, r, newName).Keys == db.Keys
    ensures Consistent(Renamed(db, r, newName))
  {
    var db' := Renamed(db, r, newName);
    assert db'.Keys == db.Keys;
    forall x | x in db' ensures RowOk(db', x.kind, db'[x]) {
      if x == r {
        RenamedValueOk(r.kind, db[r].value, newName);
        RowFramed(db, db', x.kind, db[x], db'[x]);
      } else {
        RowFramed(db, db', x.kind, db[x], db[x]);
      }
    }
    RenameKeepsUnique(db, r, newName);
  }

  lemma RenamedValueOk(k: Kind, v: Value, newName: string)
    requires StoredName(v).Some? && ShapeMatches(k, v) && ValueError(k, v).None? && NameError(newName).None?
    ensures ShapeMatches(k, WithName(v, newName)) && ValueError(k, WithName(v, newName)).None?
  {
  }

  lemma RenameKeepsUnique(db: Db, r: Ref, newName: string)
    requires UniqueNames(db) && RenameError(db, r, newName).None?
    ensures UniqueNames(Renamed(db, r, newName))
  {
    var db' := Renamed(db, r, newName);
    forall a, b | a in db' && b in db' && a.kind == b.kind && a != b && StoredName(db'[a].value).Some?
      ensures StoredName(db'[a].value) != StoredName(db'[b].value)
    {
      if a == r {
        assert StoredName(db'[a].value) == Some(newName);
      } else if b == r {
        assert StoredName(db'[b].value) == Some(newName);
      }
    }
  }

  /** Renaming a parent renames every version of it: the derived name is
      read through the parent, not cached. */
  lemma RenameReachesVersions(db: Db, r: Ref, newName: string, v: Ref)
    requires Consistent(db) && RenameError(db, r, newName).None?
    requires v in db && IsVersioned(v.kind) && ParentRef(v.kind, db[v]) == Some(r)
    ensures NameOf(Renamed(db, r, newName), v) == Ok(VersionName(newName, db[v].value.versionIdentifier))
  {
    RenamePreservesConsistent(db, r, newName);
    VersionNameReadsParent(Renamed(db, r, newName), v);
  }

  // ---------------------------------------------------------------------
  // Cascading deletion

  /** The row holds a foreign key into `s`, or is an Issue attached to a
      DataObject in `s` (the `GenericRelation` cascade). */
  predicate DependsOn(k: Kind, row: Row, s: set<Ref>) {
    || (exists f :: f in row.fks && f in ForeignKeys(k) && FkRef(k, row, f) in s)
    || (row.value.IssueValue? && IsDataObject(row.value.target.kind) && row.value.target in s)
  }

  /** The rows that depend directly on a row of `s`. */
  function Referrers(db: Db, s: set<Ref>): (d: set<Ref>)
    ensures d <= db.Keys
  {
    set x | x in db && DependsOn(x.kind, db[x], s)
  }

  lemma ReferrersMonotone(db: Db, s: set<Ref>, t: set<Ref>)
    requires s <= t
    ensures Referrers(db, s) <= Referrers(db, t)
  {
    forall x | x in Referrers(db, s) ensures x in Referrers(db, t) {
      if !(db[x].value.IssueValue? && IsDataObject(db[x].value.target.kind) && db[x].value.target in s) {
        var f :| f in db[x].fks && f in ForeignKeys(x.kind) && FkRef(x.kind, db[x], f) in s;
      }
    }
  }

  lemma ProperSubsetSmaller<T>(a: set<T>, b: set<T>)
    requires a < b
    ensures |a| < |b|
  {
    assert b == a + (b - a);
    assert |b - a| > 0 by {
      var x :| x in b && x !in a;
      assert x in b - a;
    }
  }

  /** Everything that must go when `s` goes: the least superset of `s` that
      contains every row depending on one of its members. */
  function Closure(db: Db, s: set<Ref>): (c: set<Ref>)
    requires s <= db.Keys
    ensures s <= c <= db.Keys
    ensures Referrers(db, c) <= c
    decreases |db.Keys - s|
  {
    var s' := s + Referrers(db, s);
    if s' == s then s
    else
      ProperSubsetSmaller(db.Keys - s', db.Keys - s);
      Closure(db, s')
  }

  /** Nothing unrelated is removed: the cascade lies within every set that
      contains `s` and is closed under dependency. */
  lemma {:induction false} ClosureLeast(db: Db, s: set<Ref>, c: set<Ref>)
    requires s <= db.Keys && s <= c && Referrers(db, c) <= c
    ensures Closure(db, s) <= c
    decreases |db.Keys - s|
  {
    var s' := s + Referrers(db, s);
    if s' != s {
      ReferrersMonotone(db, s, c);
      ProperSubsetSmaller(db.Keys - s', db.Keys - s);
      ClosureLeast(db, s', c);
    }
  }

  /** Drops the links that point at a deleted row (the many-to-many through
      rows cascade too). */
  function Unlink(k: Kind, row: Row, doomed: set<Ref>): (row': Row)
    ensures row'.value == row.value && row'.fks == row.fks && row'.links.Keys == row.links.Keys
    ensures forall f, id :: f in row.links && f in ManyToManyFields(k) ==>
              (id in row'.links[f] <==> id in row.links[f] && LinkRef(k, f, id) !in doomed)
    ensures forall f :: f in row.links && f !in ManyToManyFields(k) ==> row'.links[f] == row.links[f]
  {
    row.(links := map f | f in row.links ::
      if f in ManyToManyFields(k) then set id | id in row.links[f] && LinkRef(k, f, id) !in doomed
      else row.links[f])
  }

  /** The catalog after deleting `r` and everything that cascades from it. */
  function AfterDelete(db: Db, r: Ref): Db
    requires r in db
  {
    var doomed := Closure(db, {r});
    map x | x in db && x !in doomed :: Unlink(x.kind, db[x], doomed)
  }

  lemma DeletePreservesConsistent(db: Db, r: Ref)
    requires Consistent(db) && r in db
    ensures Consistent(AfterDelete(db, r))
    ensures AfterDelete(db, r).Keys == db.Keys - Closure(db, {r})
  {
    var doomed := Closure(db, {r});
    var db' := AfterDelete(db, r);
    forall x | x in db' ensures RowOk(db', x.kind, db'[x]) {
      SurvivorOk(db, doomed, db', x);
    }
    assert UniqueNames(db') by {
      forall a, b | a in db' && b in db' && a.kind == b.kind && a != b && StoredName(db'[a].value).Some?
        ensures StoredName(db'[a].value) != StoredName(db'[b].value)
      {
        assert db'[a].value == db[a].value && db'[b].value == db[b].value;
      }
    }
  }

  /** Deletion leaves a surviving row's value and foreign keys alone and
      drops from its links exactly the ids of deleted rows: the through rows
      to surviving rows stay. */
  lemma DeleteKeepsSurvivors(db: Db, r: Ref, x: Ref)
    requires r in db && x in AfterDelete(db, r)
    ensures x in db && x !in Closure(db, {r})
    ensures AfterDelete(db, r)[x].value == db[x].value && AfterDelete(db, r)[x].fks == db[x].fks
    ensures AfterDelete(db, r)[x].links.Keys == db[x].links.Keys
    ensures forall f, id :: f in db[x].links && f in ManyToManyFields(x.kind) ==>
              (id in AfterDelete(db, r)[x].links[f] <==> id in db[x].links[f] && LinkRef(x.kind, f, id) !in Closure(db, {r}))
  {
    assert AfterDelete(db, r)[x] == Unlink(x.kind, db[x], Closure(db, {r}));
  }

  /** A row outside a dependency-closed set keeps satisfying the invariant
      once that set is removed and links into it are dropped. */
  lemma SurvivorOk(db: Db, doomed: set<Ref>, db': Db, x: Ref)
    requires x in db && x !in doomed && RowOk(db, x.kind, db[x]) && Referrers(db, doomed) <= doomed
    requires db' == map y | y in db && y !in doomed :: Unlink(y.kind, db[y], doomed)
    ensures RowOk(db', x.kind, db'[x])
  {
    var row, row' := db[x], db'[x];
    forall f | f in row'.fks ensures FkRef(x.kind, row', f) in db' {
    }
    forall f, id | f in row'.links && id in row'.links[f] ensures LinkRef(x.kind, f, id) in db' {
      assert id in row.links[f];
    }
  }

  /** Deleting a parent deletes each of its versions. */
  lemma VersionsGoWithParent(db: Db, r: Ref, v: Ref)
    requires Consistent(db) && r in db && v in db && IsVersioned(v.kind)
    requires ParentRef(v.kind, db[v]) == Some(r)
    ensures v in Closure(db, {r}) && v !in AfterDelete(db, r)
  {
    var c := Closure(db, {r});
    VersionedObjectIsParentKey(v.kind);
    assert FkRef(v.kind, db[v], VersionedObject(v.kind)) == r;
    assert v in Referrers(db, c);
    DeletePreservesConsistent(db, r);
  }

  /** `chain[0]` supersedes `chain[1]`, which supersedes `chain[2]`, and so on. */
  predicate SupersedesChain(db: Db, chain: seq<Ref>) {
    forall i :: 0 <= i < |chain| - 1 ==>
      chain[i] in db && Supersedes in db[chain[i]].fks && Supersedes in ForeignKeys(chain[i].kind)
      && FkRef(chain[i].kind, db[chain[i]], Supersedes) == chain[i + 1]
  }

  /** Every version whose `supersedes` chain reaches a row in a closed set
      is in that set. */
  lemma {:induction false} ChainInClosed(db: Db, chain: seq<Ref>, c: set<Ref>)
    requires |chain| > 0 && SupersedesChain(db, chain)
    requires chain[|chain| - 1] in c && Referrers(db, c) <= c
    ensures forall i :: 0 <= i < |chain| ==> chain[i] in c
  {
    if |chain| > 1 {
      var rest := chain[1..];
      assert SupersedesChain(db, rest) by {
        forall i | 0 <= i < |rest| - 1
          ensures rest[i] in db && Supersedes in db[rest[i]].fks && Supersedes in ForeignKeys(rest[i].kind)
                  && FkRef(rest[i].kind, db[rest[i]], Supersedes) == rest[i + 1]
        {
          assert rest[i] == chain[i + 1] && rest[i + 1] == chain[i + 2];
        }
      }
      ChainInClosed(db, rest, c);
      assert chain[1] == rest[0];
      assert chain[0] in Referrers(db, c);
    }
  }

  /** Deleting a version deletes every version that supersedes it, directly
      or through a chain. */
  lemma SupersedingVersionsGo(db: Db, chain: seq<Ref>)
    requires Consistent(db) && |chain| > 0 && SupersedesChain(db, chain) && chain[|chain| - 1] in db
    ensures forall i :: 0 <= i < |chain| ==> chain[i] !in AfterDelete(db, chain[|chain| - 1])
  {
    var r := chain[|chain| - 1];
    ChainInClosed(db, chain, Closure(db, {r}));
    DeletePreservesConsistent(db, r);
  }

  // ---------------------------------------------------------------------
  // Issues

  /** The issues attached to `t` (the scoped listing). */
  function IssuesFor(db: Db, t: Ref): (s: set<Ref>)
    ensures forall i :: i in s <==> i in db && db[i].value.IssueValue? && db[i].value.target == t
  {
    set i | i in db && db[i].value.IssueValue? && db[i].value.target == t
  }

  /** Every issue (the global listing). */
  function AllIssues(db: Db): (s: set<Ref>)
    ensures forall i :: i in s <==> i in db && db[i].value.IssueValue?
  {
    set i | i in db && db[i].value.IssueValue?
  }

  /** Deleting a DataObject deletes the issues attached to it. */
  lemma IssuesGoWithDataObject(db: Db, r: Ref)
    requires Consistent(db) && r in db && IsDataObject(r.kind)
    ensures IssuesFor(AfterDelete(db, r), r) == {}
  {
    var c := Closure(db, {r});
    forall i | i in IssuesFor(db, r) ensures i in c {
      assert i in Referrers(db, c);
    }
    DeletePreservesConsistent(db, r);
  }

  /** An issue attached to a row that is not a DataObject survives the
      deletion of anything but itself, and so can be left dangling. */
  lemma IssueOnNonObjectSurvives(db: Db, r: Ref, i: Ref)
    requires Consistent(db) && r in db && i in db && i != r
    requires db[i].value.IssueValue? && !IsDataObject(db[i].value.target.kind)
    ensures i in AfterDelete(db, r)
    ensures AfterDelete(db, r)[i] == db[i]
  {
    var c := db.Keys - {i};
    assert i !in Referrers(db, c) by {
      assert WellFormed(Issue, db[i]);
      assert db[i].fks == map[];
    }
    ClosureLeast(db, {r}, c);
    DeletePreservesConsistent(db, r);
    assert db[i].links == map[];
  }

  // ---------------------------------------------------------------------
  // The catalog as an object

  class Store {
    var rows: Db
    var nextId: nat

    ghost predicate Valid()
      reads this
    {
      Consistent(rows) && forall r :: r in rows ==> r.id < nextId
    }

    constructor ()
      ensures Valid() && rows == map[]
    {
      rows := map[];
      nextId := 1;
    }

    /** Stores a new row of kind `k` under the next id, or reports why not. */
    method Create(k: Kind, row: Row) returns (res: Result<Ref>)
      requires Valid()
      modifies this
      ensures Valid()
      ensures res.Ok? <==> CreateError(old(rows), k, row).None?
      ensures res.Ok? ==> res.value.kind == k && res.value !in old(rows)
                          && rows == old(rows)[res.value := row]
      ensures res.Err? ==> res.error == CreateError(old(rows), k, row).value && rows == old(rows)
    {
      var e := CreateError(rows, k, row);
      if e.Some? {
        return Err(e.value);
      }
      var r := Ref(k, nextId);
      CreatePreservesConsistent(rows, k, nextId, row);
      rows := rows[r := row];
      nextId := nextId + 1;
      return Ok(r);
    }

    /** `Issue(content_type=..., object_id=..., ...).save()`: attaches an
        issue to any (kind, id) pair; the target is not checked. */
    method Attach(target: Ref, name: string, severity: nat, desc: string) returns (res: Result<Ref>)
      requires Valid()
      modifies this
      ensures Valid()
      ensures res.Ok? ==> rows == old(rows)[res.value := Row(IssueValue(name, target, severity, desc), map[], map[])]
                          && res.value !in old(rows)
                          && res.value in IssuesFor(rows, target) && res.value in AllIssues(rows)
      ensures res.Err? ==> rows == old(rows)
      ensures res.Ok? <==> (0 < |name| <= NameMaxLength && 0 < |desc| <= DescMaxLength && severity <= SeverityMax
                            && forall r :: r in old(rows) && r.kind == Issue ==> StoredName(old(rows)[r].value) != Some(name))
    {
      res := Create(Issue, Row(IssueValue(name, target, severity, desc), map[], map[]));
    }

    /** `Issue(...)` without a `severity`: the field's default, 1, is stored. */
    method AttachWithDefaultSeverity(target: Ref, name: string, desc: string) returns (res: Result<Ref>)
      requires Valid()
      modifies this
      ensures Valid()
      ensures res.Ok? ==> rows == old(rows)[res.value := Row(IssueValue(name, target, DefaultSeverity, desc), map[], map[])]
                          && res.value !in old(rows) && res.value in IssuesFor(rows, target)
      ensures res.Err? ==> rows == old(rows)
      ensures res.Ok? <==> (0 < |name| <= NameMaxLength && 0 < |desc| <= DescMaxLength
                            && forall r :: r in old(rows) && r.kind == Issue ==> StoredName(old(rows)[r].value) != Some(name))
    {
      res := Attach(target, name, DefaultSeverity, desc);
    }

    /** Saves a new stored name for `r`. */
    method Rename(r: Ref, newName: string) returns (err: Option<CatalogError>)
      requires Valid()
      modifies this
      ensures Valid()
      ensures err == RenameError(old(rows), r, newName)
      ensures err.None? ==> rows == Renamed(old(rows), r, newName)
      ensures err.Some? ==> rows == old(rows)
    {
      err := RenameError(rows, r, newName);
      if err.None? {
        RenamePreservesConsistent(rows, r, newName);
        rows := Renamed(rows, r, newName);
      }
    }

    /** Deletes `r` and everything that cascades from it; returns what was
        deleted. */
    method Delete(r: Ref) returns (res: Result<set<Ref>>)
      requires Valid()
      modifies this
      ensures Valid()
      ensures r !in old(rows) ==> res == Err(NotFound(r)) && rows == old(rows)
      ensures r in old(rows) ==> res == Ok(Closure(old(rows), {r})) && rows == AfterDelete(old(rows), r)
      ensures res.Ok? ==> r in res.value && rows.Keys == old(rows).Keys - res.value
    {
      if r !in rows {
        return Err(NotFound(r));
      }
      var doomed := Closure(rows, {r});
      DeletePreservesConsistent(rows, r);
      rows := AfterDelete(rows, r);
      return Ok(doomed);
    }

    /** The `name` of a row, derived where the kind derives it. */
    function Name(r: Ref): (res: Result<string>)
      reads this
      requires Valid()
      ensures r in rows ==> res.Ok?
      ensures r !in rows ==> res == Err(NotFound(r))
    {
      if r in rows then NameTotal(rows, r); NameOf(rows, r) else NameOf(rows, r)
    }
  }
}
