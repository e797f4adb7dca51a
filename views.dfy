/** The catalog's page logic in data_management/views.py: the labels the
    list, detail and index pages put in their contexts, the list and detail
    view classes generated for every object kind, the separately declared
    Issue views, and the index page's walk over the object kinds in name
    order. `camel_case_to_spaces`, the row counts and the docstrings come
    from code outside the model and are passed in as functions. */
module Views {

  import opened Text
  import opened Kinds
  import opened Names

  // ---------------------------------------------------------------------
  // Labels

  /** The list page's name: the class name lower-cased, plus `s`. */
  function PluralLabel(modelName: string): (l: string)
    ensures |l| == |modelName| + 1 && l[|modelName|] == 's'
    ensures forall i :: 0 <= i < |modelName| ==> l[i] == LowerChar(modelName[i])
  {
    Lower(modelName) + "s"
  }

  /** For a class, the plural label is its `reverse_name()` plus `s`. */
  lemma PluralLabelIsReverseName(k: Kind)
    ensures PluralLabel(KindName(k)) == ReverseName(k) + "s"
  {
  }

  // ---------------------------------------------------------------------
  // Template contexts

  /** A context value: a label set by these views, or something Django's own
      `get_context_data` supplied (the object, the object list, ...). */
  datatype ContextValue = Str(s: string) | Supplied(tag: nat)

  /** A template context: a dict the views update in place. */
  class Context {
    var entries: map<string, ContextValue>

    constructor (initial: map<string, ContextValue>)
      ensures entries == initial
    {
      entries := initial;
    }

    /** `context[key] = value`. */
    method Set(key: string, value: ContextValue)
      modifies this
      ensures entries == old(entries)[key := value]
    {
      entries := entries[key := value];
    }
  }

  /** The context of a list page: the inherited entries plus `model_name`
      and `display_name`. */
  function ListContext(base: map<string, ContextValue>, modelName: string, camel: string -> string)
    : (c: map<string, ContextValue>)
    ensures c.Keys == base.Keys + {"model_name", "display_name"}
    ensures c["model_name"] == Str(Lower(modelName))
    ensures c["display_name"] == Str(camel(modelName) + "s")
    ensures forall key :: key in base && key != "model_name" && key != "display_name" ==> c[key] == base[key]
  {
    base["model_name" := Str(Lower(modelName))]["display_name" := Str(camel(modelName) + "s")]
  }

  /** The context of a detail page: the inherited entries plus `list_name`,
      `list_display_name` and `model_name`. */
  function DetailContext(base: map<string, ContextValue>, modelName: string, camel: string -> string)
    : (c: map<string, ContextValue>)
    ensures c.Keys == base.Keys + {"list_name", "list_display_name", "model_name"}
    ensures c["list_name"] == Str(PluralLabel(modelName))
    ensures c["list_display_name"] == Str(camel(modelName) + "s")
    ensures c["model_name"] == Str(Lower(modelName))
    ensures forall key :: key in base && key != "list_name" && key != "list_display_name" && key != "model_name"
                          ==> c[key] == base[key]
  {
    base["list_name" := Str(PluralLabel(modelName))]
        ["list_display_name" := Str(camel(modelName) + "s")]
        ["model_name" := Str(Lower(modelName))]
  }

  /** The detail page links back to the list page under the list page's own
      display name, and both pages agree on `model_name`. */
  lemma ListAndDetailAgree(listBase: map<string, ContextValue>, detailBase: map<string, ContextValue>,
                           modelName: string, camel: string -> string)
    ensures DetailContext(detailBase, modelName, camel)["list_display_name"]
            == ListContext(listBase, modelName, camel)["display_name"]
    ensures DetailContext(detailBase, modelName, camel)["model_name"]
            == ListContext(listBase, modelName, camel)["model_name"]
    ensures DetailContext(detailBase, modelName, camel)["list_name"]
            == Str(ListContext(listBase, modelName, camel)["model_name"].s + "s")
  {
  }

  datatype ViewBase = ListBase | DetailBase

  function Suffix(b: ViewBase): string {
    match b
    case ListBase => "ListView"
    case DetailBase => "DetailView"
  }

  /** A class made by `type(name + suffix, (base,), {'model': cls, 'model_name': name})`. */
  datatype GeneratedView = GeneratedView(base: ViewBase, model: PyClass, modelName: string)

  /** `BaseListView` with the class attributes a generated subclass sets. */
  class ListPage {
    const model: PyClass
    const modelName: string
    const contextObjectName: string
    const templateName: string

    constructor (v: GeneratedView)
      requires v.base == ListBase
      ensures model == v.model && modelName == v.modelName
      ensures contextObjectName == "objects" && templateName == "data_management/object_list.html"
    {
      model := v.model;
      modelName := v.modelName;
      contextObjectName := "objects";
      templateName := "data_management/object_list.html";
    }

    /** Takes the context the generic view built and adds the labels. */
    method GetContextData(base: map<string, ContextValue>, camel: string -> string) returns (context: Context)
      ensures fresh(context)
      ensures context.entries == ListContext(base, modelName, camel)
    {
      context := new Context(base);
      context.Set("model_name", Str(Lower(modelName)));
      context.Set("display_name", Str(camel(modelName) + "s"));
    }
  }

  /** `BaseDetailView` with the class attributes a generated subclass sets. */
  class DetailPage {
    const model: PyClass
    const modelName: string
    const contextObjectName: string

    constructor (v: GeneratedView)
      requires v.base == DetailBase
      ensures model == v.model && modelName == v.modelName && contextObjectName == "object"
    {
      model := v.model;
      modelName := v.modelName;
      contextObjectName := "object";
    }

    method GetContextData(base: map<string, ContextValue>, camel: string -> string) returns (context: Context)
      ensures fresh(context)
      ensures context.entries == DetailContext(base, modelName, camel)
    {
      context := new Context(base);
      context.Set("list_name", Str(Lower(modelName) + "s"));
      context.Set("list_display_name", Str(camel(modelName) + "s"));
      context.Set("model_name", Str(Lower(modelName)));
    }
  }

  // ---------------------------------------------------------------------
  // Generated views

  predicate HasSuffix(s: string, suffix: string) {
    |suffix| <= |s| && s[|s| - |suffix|..] == suffix
  }

  /** What a module-level name of views.py is bound to by the generation
      loop, read off the name itself: `<registered name>ListView` or
      `<registered name>DetailView`, and nothing else. */
  function ViewFor(registry: map<string, PyClass>, key: string): (v: Option<GeneratedView>)
    ensures v.Some? ==> v.value.modelName in registry && v.value.model == registry[v.value.modelName]
                        && key == v.value.modelName + Suffix(v.value.base)
  {
    if HasSuffix(key, "ListView") && key[..|key| - 8] in registry then
      var n := key[..|key| - 8];
      assert key == n + key[|key| - 8..];
      Some(GeneratedView(ListBase, registry[n], n))
    else if HasSuffix(key, "DetailView") && key[..|key| - 10] in registry then
      var n := key[..|key| - 10];
      assert key == n + key[|key| - 10..];
      Some(GeneratedView(DetailBase, registry[n], n))
    else None
  }

  /** Every registered name gets its list view and its detail view. */
  lemma ViewsOfName(registry: map<string, PyClass>, n: string)
    requires n in registry
    ensures ViewFor(registry, n + "ListView") == Some(GeneratedView(ListBase, registry[n], n))
    ensures ViewFor(registry, n + "DetailView") == Some(GeneratedView(DetailBase, registry[n], n))
  {
    var l, d := n + "ListView", n + "DetailView";
    assert l[|l| - 8..] == "ListView" && l[..|l| - 8] == n;
    assert d[|d| - 10..] == "DetailView" && d[..|d| - 10] == n;
    assert d[|d| - 8..] == "tailView";
  }

  /** The loop at module level of views.py: for every registered name, binds
      `<name>ListView` and `<name>DetailView`; returns the bindings it made. */
  method GenerateViews(registry: map<string, PyClass>) returns (views: map<string, GeneratedView>)
    ensures forall key :: key in views <==> ViewFor(registry, key).Some?
    ensures forall key :: key in views ==> views[key] == ViewFor(registry, key).value
  {
    views := map[];
    var todo := registry.Keys;
    while todo != {}
      invariant todo <= registry.Keys
      invariant forall key :: key in views <==> ViewFor(registry, key).Some? && ViewFor(registry, key).value.modelName !in todo
      invariant forall key :: key in views ==> views[key] == ViewFor(registry, key).value
      decreases |todo|
    {
      var name :| name in todo;
      ViewsOfName(registry, name);
      views := views[name + "ListView" := GeneratedView(ListBase, registry[name], name)]
                    [name + "DetailView" := GeneratedView(DetailBase, registry[name], name)];
      todo := todo - {name};
    }
  }

  /** Django's own `generic.ListView` and `generic.DetailView`. */
  datatype GenericView = GenericList | GenericDetail

  /** A view class declared by hand directly on a generic view: its `model`
      and its `context_object_name` (`None` where the class keeps Django's
      default). Such a class sets no `model_name` and adds no context
      entries of its own. */
  datatype DeclaredView = DeclaredView(generic: GenericView, model: PyClass, contextObjectName: Option<string>)

  /** The Issue views declared by hand, under names the generation loop does
      not bind. */
  const IssueListView := DeclaredView(GenericList, ConcreteClass(Issue), Some("issues"))
  const IssueDetailView := DeclaredView(GenericDetail, ConcreteClass(Issue), None)

  lemma IssueNamesUnbound(registry: map<string, PyClass>)
    requires "Issue" !in registry
    ensures ViewFor(registry, "IssueListView").None?
    ensures ViewFor(registry, "IssueDetailView").None?
  {
    UnboundWhenPrefixUnregistered(registry, "Issue");
    assert "Issue" + "ListView" == "IssueListView";
    assert "Issue" + "DetailView" == "IssueDetailView";
  }

  lemma UnboundWhenPrefixUnregistered(registry: map<string, PyClass>, n: string)
    requires n !in registry
    ensures ViewFor(registry, n + "ListView").None?
    ensures ViewFor(registry, n + "DetailView").None?
  {
    var l, d := n + "ListView", n + "DetailView";
    assert l[..|l| - 8] == n && l[|l| - 8..] == "ListView";
    assert d[..|d| - 10] == n && d[|d| - 10..] == "DetailView";
    SuffixesExclusive(l);
    SuffixesExclusive(d);
  }

  /** No name ends both in `ListView` and in `DetailView`. */
  lemma SuffixesExclusive(s: string)
    ensures HasSuffix(s, "DetailView") ==> !HasSuffix(s, "ListView")
  {
    if HasSuffix(s, "DetailView") {
      assert s[|s| - 8..] == "DetailView"[2..];
    }
  }

  // ---------------------------------------------------------------------
  // Name order

  predicate StrictlyAscending(s: seq<string>) {
    forall i, j :: 0 <= i < j < |s| ==> StrLess(s[i], s[j])
  }

  predicate IsLeast(m: string, s: set<string>) {
    m in s && forall x :: x in s && x != m ==> StrLess(m, x)
  }

  lemma {:induction false} LeastExists(s: set<string>)
    requires s != {}
    ensures exists m :: IsLeast(m, s)
    decreases |s|
  {
    var x :| x in s;
    var rest := s - {x};
    if rest != {} {
      LeastExists(rest);
      var m :| IsLeast(m, rest);
      StrLessTotal(x, m);
      if StrLess(x, m) {
        forall y | y in s && y != x ensures StrLess(x, y) {
          if y != m { StrLessTransitive(x, m, y); }
        }
        assert IsLeast(x, s);
      } else {
        assert IsLeast(m, s);
      }
    } else {
      assert s == {x};
    }
  }

  /** `sorted(names)`: the names in ascending order. */
  ghost function SortedOrder(s: set<string>): (r: seq<string>)
    ensures StrictlyAscending(r)
    ensures forall x :: x in r <==> x in s
    ensures |r| == |s|
    decreases |s|
  {
    if s == {} then []
    else
      LeastExists(s);
      var m :| IsLeast(m, s);
      var rest := SortedOrder(s - {m});
      assert forall x :: x in rest ==> StrLess(m, x);
      [m] + rest
  }

  /** A set has only one strictly ascending enumeration. */
  lemma {:induction false} AscendingUnique(a: seq<string>, b: seq<string>)
    requires StrictlyAscending(a) && StrictlyAscending(b)
    requires forall x :: x in a <==> x in b
    ensures a == b
    decreases |a|
  {
    if b != [] {
      assert b[0] in b;
    }
    if a != [] {
      assert b != [] by { assert a[0] in b; }
      if a[0] != b[0] {
        assert a[0] in b && b[0] in a;
        var i :| 0 <= i < |b| && b[i] == a[0];
        var j :| 0 <= j < |a| && a[j] == b[0];
        assert StrLess(b[0], a[0]) && StrLess(a[0], b[0]);
        StrLessAsymmetric(a[0], b[0]);
      }
      forall x ensures x in a[1..] <==> x in b[1..] {
        if x in a[1..] {
          TailMember(a, b, x);
        }
        if x in b[1..] {
          TailMember(b, a, x);
        }
      }
      AscendingUnique(a[1..], b[1..]);
      assert a == [a[0]] + a[1..] && b == [b[0]] + b[1..];
    }
  }

  lemma TailMember(a: seq<string>, b: seq<string>, x: string)
    requires StrictlyAscending(a) && StrictlyAscending(b) && a != [] && b != [] && a[0] == b[0]
    requires forall y :: y in a <==> y in b
    requires x in a[1..]
    ensures x in b[1..]
  {
    var i :| 0 <= i < |a[1..]| && a[1..][i] == x;
    assert StrLess(a[0], a[i + 1]);
    StrLessIrreflexive(x);
    assert x in a;
    var k :| 0 <= k < |b| && b[k] == x;
    assert k != 0;
    assert b[1..][k - 1] == x;
  }

  /** The least of a non-empty set of names. */
  method Least(s: set<string>) returns (m: string)
    requires s != {}
    ensures IsLeast(m, s)
  {
    m :| m in s;
    var todo := s - {m};
    while todo != {}
      invariant todo <= s && m in s && m !in todo
      invariant forall x :: x in s && x !in todo && x != m ==> StrLess(m, x)
      decreases |todo|
    {
      var x :| x in todo;
      StrLessTotal(x, m);
      if StrLess(x, m) {
        forall y | y in s && y !in todo && y != x ensures StrLess(x, y) {
          if y != m { StrLessTransitive(x, m, y); }
        }
        m := x;
      }
      todo := todo - {x};
    }
  }

  /** `sorted()` on the registry's names. */
  method Sorted(s: set<string>) returns (r: seq<string>)
    ensures r == SortedOrder(s)
  {
    r := [];
    var rest := s;
    while rest != {}
      invariant rest <= s
      invariant forall x :: x in s <==> x in r || x in rest
      invariant forall x :: x in r ==> x !in rest
      invariant StrictlyAscending(r)
      invariant forall i, y :: 0 <= i < |r| && y in rest ==> StrLess(r[i], y)
      decreases |rest|
    {
      var m := Least(rest);
      r := r + [m];
      rest := rest - {m};
    }
    AscendingUnique(r, SortedOrder(s));
  }

  // ---------------------------------------------------------------------
  // The index page

  /** One row of the index page's object table. */
  datatype ObjectData = ObjectData(name: string, displayName: string, count: nat, doc: string)

  /** The row for the registered name `n`. */
  function IndexEntry(registry: map<string, PyClass>, n: string, camel: string -> string,
                      count: string -> nat, doc: PyClass -> string): (d: ObjectData)
    requires n in registry
    ensures d.name == PluralLabel(n) && d.displayName == camel(n)
    ensures d.count == count(n) && d.doc == doc(registry[n])
  {
    ObjectData(Lower(n) + "s", camel(n), count(n), doc(registry[n]))
  }

  /** `index`: one row per registered object kind, in ascending name order. */
  method Index(registry: map<string, PyClass>, camel: string -> string, count: string -> nat,
               doc: PyClass -> string) returns (objectData: seq<ObjectData>)
    ensures |objectData| == |registry|
    ensures forall i :: 0 <= i < |objectData| ==>
              SortedOrder(registry.Keys)[i] in registry
              && objectData[i] == IndexEntry(registry, SortedOrder(registry.Keys)[i], camel, count, doc)
  {
    var names := Sorted(registry.Keys);
    objectData := [];
    for i := 0 to |names|
      invariant |objectData| == i
      invariant forall j :: 0 <= j < i ==> names[j] in registry && objectData[j] == IndexEntry(registry, names[j], camel, count, doc)
    {
      var modelName := names[i];
      objectData := objectData + [ObjectData(Lower(modelName) + "s", camel(modelName), count(modelName), doc(registry[modelName]))];
    }
  }

  /** The index shows a kind's spaced name without the plural `s` that its
      list page adds. */
  lemma IndexAndListDisplayNames(registry: map<string, PyClass>, n: string, base: map<string, ContextValue>,
                                 camel: string -> string, count: string -> nat, doc: PyClass -> string)
    requires n in registry
    ensures ListContext(base, n, camel)["display_name"]
            == Str(IndexEntry(registry, n, camel, count, doc).displayName + "s")
    ensures DetailContext(base, n, camel)["list_name"] == Str(IndexEntry(registry, n, camel, count, doc).name)
  {
  }
}
