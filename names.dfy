/** The derived display names of data_management/models.py: a version's
    name built from its parent's, a model run's from its model version's,
    an issue's `__str__`, and `reverse_name`. */
module Names {

  import opened Text
  import opened Kinds

  /** `DataObjectVersion.name`: `'%s (version %s)' % (parent.name, version_identifier)`. */
  function VersionName(parentName: string, versionIdentifier: string): string {
    parentName + " (version " + versionIdentifier + ")"
  }

  /** `ModelRun.name`: `'%s (Run %s)' % (model_version.name, release_date)`. */
  function RunName(modelVersionName: string, releaseDate: Date): string {
    modelVersionName + " (Run " + IsoFormat(releaseDate) + ")"
  }

  /** `Issue.__str__`: `'%s [Severity %s]' % (name, severity)`. */
  function IssueLabel(name: string, severity: nat): string {
    name + " [Severity " + Decimal(severity) + "]"
  }

  /** `BaseModel.reverse_name`: the class name, lower-cased. */
  function ReverseName(k: Kind): string {
    Lower(KindName(k))
  }

  // ---------------------------------------------------------------------
  // Cancellation on strings

  lemma CancelPrefix(a: string, x: string, y: string)
    requires a + x == a + y
    ensures x == y
  {
    assert x == (a + x)[|a|..];
    assert y == (a + y)[|a|..];
  }

  lemma CancelSuffix(x: string, y: string, b: string)
    requires x + b == y + b
    ensures x == y
  {
    assert x == (x + b)[..|x + b| - |b|];
    assert y == (y + b)[..|y + b| - |b|];
  }

  // ---------------------------------------------------------------------
  // Properties of the derived names

  /** A version's name starts with its parent's name and ends with the
      version identifier in parentheses. */
  lemma VersionNameParts(parentName: string, versionIdentifier: string)
    ensures |VersionName(parentName, versionIdentifier)| == |parentName| + |versionIdentifier| + 11
    ensures VersionName(parentName, versionIdentifier)[..|parentName|] == parentName
    ensures VersionName(parentName, versionIdentifier)[|parentName|..] == " (version " + versionIdentifier + ")"
  {
    var s := VersionName(parentName, versionIdentifier);
    assert s == parentName + (" (version " + versionIdentifier + ")");
  }

  /** For one version identifier, the name determines the parent's name,
      and for one parent name it determines the version identifier. */
  lemma VersionNameInjective(p1: string, p2: string, v1: string, v2: string)
    ensures VersionName(p1, v1) == VersionName(p2, v1) <==> p1 == p2
    ensures VersionName(p1, v1) == VersionName(p1, v2) <==> v1 == v2
  {
    if VersionName(p1, v1) == VersionName(p2, v1) {
      assert VersionName(p1, v1) == p1 + (" (version " + v1 + ")");
      assert VersionName(p2, v1) == p2 + (" (version " + v1 + ")");
      CancelSuffix(p1, p2, " (version " + v1 + ")");
    }
    if VersionName(p1, v1) == VersionName(p1, v2) {
      assert VersionName(p1, v1) == (p1 + " (version ") + (v1 + ")");
      assert VersionName(p1, v2) == (p1 + " (version ") + (v2 + ")");
      CancelPrefix(p1 + " (version ", v1 + ")", v2 + ")");
      CancelSuffix(v1, v2, ")");
    }
  }

  /** A run of a model version is named after the model, the version
      identifier and the release date: the two derivations nest. */
  lemma RunOfVersionName(modelName: string, versionIdentifier: string, releaseDate: Date)
    ensures RunName(VersionName(modelName, versionIdentifier), releaseDate)
            == modelName + " (version " + versionIdentifier + ") (Run " + IsoFormat(releaseDate) + ")"
    ensures RunName(VersionName(modelName, versionIdentifier), releaseDate)[..|modelName|] == modelName
  {
    VersionNameParts(modelName, versionIdentifier);
  }

  /** Two runs of the same model version are named alike exactly when they
      share a release date. */
  lemma RunNameInjective(modelVersionName: string, d1: Date, d2: Date)
    requires ValidDate(d1) && ValidDate(d2)
    ensures RunName(modelVersionName, d1) == RunName(modelVersionName, d2) <==> d1 == d2
  {
    if RunName(modelVersionName, d1) == RunName(modelVersionName, d2) {
      var a := modelVersionName + " (Run ";
      assert RunName(modelVersionName, d1) == a + (IsoFormat(d1) + ")");
      assert RunName(modelVersionName, d2) == a + (IsoFormat(d2) + ")");
      CancelPrefix(a, IsoFormat(d1) + ")", IsoFormat(d2) + ")");
      CancelSuffix(IsoFormat(d1), IsoFormat(d2), ")");
      IsoInjective(d1, d2);
    }
  }

  /** An issue's label ends in its severity, in decimal, in brackets. */
  lemma IssueLabelParts(name: string, severity: nat)
    ensures IssueLabel(name, severity)[..|name|] == name
    ensures IssueLabel(name, severity)[|name|..] == " [Severity " + Decimal(severity) + "]"
  {
    var s := IssueLabel(name, severity);
    assert s == name + (" [Severity " + Decimal(severity) + "]");
  }

  /** For one issue name the label determines the severity; for one
      severity it determines the name. */
  lemma IssueLabelInjective(n1: string, n2: string, s1: nat, s2: nat)
    ensures IssueLabel(n1, s1) == IssueLabel(n1, s2) <==> s1 == s2
    ensures IssueLabel(n1, s1) == IssueLabel(n2, s1) <==> n1 == n2
  {
    if IssueLabel(n1, s1) == IssueLabel(n1, s2) {
      var a := n1 + " [Severity ";
      assert IssueLabel(n1, s1) == a + (Decimal(s1) + "]");
      assert IssueLabel(n1, s2) == a + (Decimal(s2) + "]");
      CancelPrefix(a, Decimal(s1) + "]", Decimal(s2) + "]");
      CancelSuffix(Decimal(s1), Decimal(s2), "]");
      DecimalInjective(s1, s2);
    }
    if IssueLabel(n1, s1) == IssueLabel(n2, s1) {
      var b := " [Severity " + Decimal(s1) + "]";
      assert IssueLabel(n1, s1) == n1 + b && IssueLabel(n2, s1) == n2 + b;
      CancelSuffix(n1, n2, b);
    }
  }

  /** The label of an issue created with the default severity. */
  lemma DefaultSeverityLabel(name: string)
    ensures IssueLabel(name, 1) == name + " [Severity 1]"
  {
    assert Decimal(1) == "1";
  }
}
