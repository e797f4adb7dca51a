/** The views of data_management/views.py instantiated for the registry
    the module actually iterates, `all_object_models`: one list and one
    detail view per object kind, none for Issue, and the index rows in
    class-name order. */
module ObjectViews {

  import opened Text
  import opened Kinds
  import opened Registry
  import opened Names
  import opened Views

  /** Each object kind has exactly one generated list view and exactly one
      generated detail view, named after it and bound to it. */
  lemma OneViewPairPerKind(k: Kind, key: string, b: ViewBase)
    requires IsDataObject(k)
    ensures ViewFor(AllObjectModels(), KindName(k) + Suffix(b)) == Some(GeneratedView(b, ConcreteClass(k), KindName(k)))
    ensures ViewFor(AllObjectModels(), key).Some? && ViewFor(AllObjectModels(), key).value.model == ConcreteClass(k)
            && ViewFor(AllObjectModels(), key).value.base == b
            ==> key == KindName(k) + Suffix(b)
  {
    AllObjectModelsExact();
    ViewsOfName(AllObjectModels(), KindName(k));
    var v := ViewFor(AllObjectModels(), key);
    if v.Some? && v.value.model == ConcreteClass(k) {
      KindNameInjective(k, AllObjectModels()[v.value.modelName].kind);
    }
  }

  /** A kind outside the object registry gets no generated view. */
  lemma NoViewOutsideRegistry(k: Kind, key: string)
    requires !IsDataObject(k)
    ensures ViewFor(AllObjectModels(), key).Some? ==> ViewFor(AllObjectModels(), key).value.model != ConcreteClass(k)
  {
    AllObjectModelsExact();
  }

  /** No registered name is bound under `IssueListView` or `IssueDetailView`,
      so the hand-written Issue classes are the only ones with those names. */
  lemma IssueViewNamesUnbound()
    ensures ViewFor(AllObjectModels(), "IssueListView").None?
    ensures ViewFor(AllObjectModels(), "IssueDetailView").None?
  {
    IssueIsNotAnObjectModel();
    IssueNamesUnbound(AllObjectModels());
  }

  /** The bindings the generation loop makes over `all_object_models` take
      neither Issue view's name and serve no Issue page, so the two class
      statements that follow the loop add the only Issue views. */
  lemma IssueViewsNotGenerated(views: map<string, GeneratedView>)
    requires forall key :: key in views <==> ViewFor(AllObjectModels(), key).Some?
    requires forall key :: key in views ==> views[key] == ViewFor(AllObjectModels(), key).value
    ensures "IssueListView" !in views && "IssueDetailView" !in views
    ensures forall key :: key in views ==> views[key].model != IssueListView.model && views[key].model != IssueDetailView.model
  {
    IssueViewNamesUnbound();
    forall key | key in views
      ensures views[key].model != IssueListView.model && views[key].model != IssueDetailView.model
    {
      GeneratedViewNotIssue(views, key);
    }
  }

  /** One generated binding serves no Issue page. */
  lemma GeneratedViewNotIssue(views: map<string, GeneratedView>, key: string)
    requires ViewFor(AllObjectModels(), key).Some?
    requires key in views && views[key] == ViewFor(AllObjectModels(), key).value
    ensures views[key].model != ConcreteClass(Issue)
  {
    var v := ViewFor(AllObjectModels(), key).value;
    assert v.modelName in AllObjectModels();
    assert !IsDataObject(Issue);
    ObjectModelValue(Issue, v.modelName);
  }

  /** The index rows come in strictly ascending order of class name. */
  lemma IndexOrder(i: nat, j: nat)
    requires i < j < |AllObjectModels()|
    ensures |SortedOrder(AllObjectModels().Keys)| == |AllObjectModels()|
    ensures StrLess(SortedOrder(AllObjectModels().Keys)[i], SortedOrder(AllObjectModels().Keys)[j])
  {
  }

  /** Each index row is an object kind and carries the kind's plural label,
      which is also the detail pages' `list_name`. */
  lemma IndexRowLabel(i: nat)
    requires i < |AllObjectModels()|
    ensures var names := SortedOrder(AllObjectModels().Keys);
      && |names| == |AllObjectModels()|
      && names[i] in AllObjectModels()
      && AllObjectModels()[names[i]].ConcreteClass?
      && IsDataObject(AllObjectModels()[names[i]].kind)
      && PluralLabel(names[i]) == ReverseName(AllObjectModels()[names[i]].kind) + "s"
  {
    AllObjectModelsExact();
    var names := SortedOrder(AllObjectModels().Keys);
    assert names[i] in AllObjectModels().Keys;
  }
}
