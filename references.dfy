/** Stack references of the self-managed (file/bucket) backend and the layout version
    that decides how stacks are stored. A reference is a stack name, a project name
    (empty for references of the legacy layout) and the store that created it. */
module References {
  import opened Wrappers
  import opened Paths

  /** A character allowed in a `tokens.Name`. */
  predicate IsNameChar(c: char) {
    'A' <= c <= 'Z' || 'a' <= c <= 'z' || '0' <= c <= '9' || c == '_' || c == '.' || c == '-'
  }

  /** `tokens.IsName`: a non-empty run of name characters. */
  predicate IsName(s: string) {
    |s| > 0 && forall i :: 0 <= i < |s| ==> IsNameChar(s[i])
  }

  /** Which layout a reference (or a backend) uses: `legacyReferenceStore` keeps every
      stack in one directory, `projectReferenceStore` one directory per project. */
  datatype StoreKind = LegacyStore | ProjectStore

  datatype StackReference = StackReference(name: string, project: string, store: StoreKind)
  {
    /** Names are valid, and a project is present exactly in the project layout. */
    predicate Valid() {
      IsName(name) && (if store.LegacyStore? then project == "" else IsName(project))
    }
  }

  const OrganizationPrefix: string := "organization/"

  /** `organization/<project>/<name>`. */
  function Qualified(project: string, name: string): string {
    OrganizationPrefix + project + "/" + name
  }

  /** `localBackendReference.String`: the bare name for a legacy reference or one in the
      current project, the qualified form otherwise. */
  function String(r: StackReference, currentProject: Option<string>): (s: string)
    ensures r.project == "" ==> s == r.name
    ensures r.project != "" && currentProject == Some(r.project) ==> s == r.name
    ensures r.project != "" && currentProject != Some(r.project) ==> s == Qualified(r.project, r.name)
  {
    if r.project == "" then r.name
    else if currentProject.Some? && r.project == currentProject.value then r.name
    else Qualified(r.project, r.name)
  }

  /** `localBackendReference.FullyQualifiedName`: never elides the project. */
  function FullyQualifiedName(r: StackReference): (q: string)
    ensures r.project == "" ==> q == r.name
    ensures r.project != "" ==> q == Qualified(r.project, r.name)
  {
    if r.project == "" then r.name else Qualified(r.project, r.name)
  }

  /** The rendered reference is the bare name exactly when there is no project or the
      project is the current one. */
  lemma StringElidesExactly(r: StackReference, currentProject: Option<string>)
    ensures String(r, currentProject) == r.name <==> r.project == "" || currentProject == Some(r.project)
  {
    if r.project != "" && currentProject != Some(r.project) {
      assert |Qualified(r.project, r.name)| > |r.name|;
    }
  }

  /** Outside the current project the rendering is the fully qualified name, and with no
      current project it always is. */
  lemma StringWithoutCurrentProject(r: StackReference, currentProject: Option<string>)
    ensures currentProject != Some(r.project) ==> String(r, currentProject) == FullyQualifiedName(r)
    ensures String(r, None) == FullyQualifiedName(r)
  {
  }

  /** A qualified name always holds a '/', which no stack name does. */
  lemma QualifiedHasSlash(project: string, name: string)
    ensures '/' in Qualified(project, name)
  {
    assert Qualified(project, name)[12] == '/';
  }

  lemma NameHasNoSlash(s: string)
    requires IsName(s)
    ensures '/' !in s
  {
  }

  /** Distinct valid references have distinct fully qualified names: a project-scoped
      name can never be mistaken for a legacy one, nor for another project's. */
  lemma FullyQualifiedNameInjective(r1: StackReference, r2: StackReference)
    requires r1.Valid() && r2.Valid()
    requires FullyQualifiedName(r1) == FullyQualifiedName(r2)
    ensures r1.name == r2.name && r1.project == r2.project
  {
    if r1.project == "" && r2.project != "" {
      NameHasNoSlash(r1.name);
      QualifiedHasSlash(r2.project, r2.name);
    } else if r1.project != "" && r2.project == "" {
      NameHasNoSlash(r2.name);
      QualifiedHasSlash(r1.project, r1.name);
    } else if r1.project != "" {
      var q := FullyQualifiedName(r1);
      var n := |OrganizationPrefix|;
      assert q[n..] == r1.project + ['/'] + r1.name;
      assert q[n..] == r2.project + ['/'] + r2.name;
      NameHasNoSlash(r1.project);
      NameHasNoSlash(r2.project);
      JoinedUnique(r1.project, r1.name, r2.project, r2.name, '/');
    }
  }

  // ------------------------------------------------------------------ layout version

  function DigitChar(d: int): char
    requires 0 <= d < 10
  {
    "0123456789"[d]
  }

  /** `%d` of a natural number. */
  function NatToString(n: nat): string
  {
    if n < 10 then [DigitChar(n)] else NatToString(n / 10) + [DigitChar(n % 10)]
  }

  /** `%d` of an integer. */
  function IntToString(i: int): string
  {
    if i < 0 then "-" + NatToString(-i) else NatToString(i)
  }

  function UnsupportedVersionError(version: int): string {
    "state store unsupported: 'Pulumi.yaml' version (" + IntToString(version)
      + ") is not supported by this version of the Pulumi CLI"
  }

  /** The manifest version a store writes. */
  function Version(kind: StoreKind): int {
    match kind
    case LegacyStore => 0
    case ProjectStore => 1
  }

  /** The version switch in `New`: 0 is the legacy layout, 1 the project layout, and
      anything else is refused. */
  function SelectStore(version: int): (r: Result<StoreKind, string>)
    ensures version == 0 ==> r == Ok(LegacyStore)
    ensures version == 1 ==> r == Ok(ProjectStore)
    ensures version != 0 && version != 1 ==> r == Err(UnsupportedVersionError(version))
  {
    if version == 0 then Ok(LegacyStore)
    else if version == 1 then Ok(ProjectStore)
    else Err(UnsupportedVersionError(version))
  }

  /** The switch and the version a store writes are inverse to each other. */
  lemma SelectStoreInvertsVersion(kind: StoreKind, version: int)
    ensures SelectStore(Version(kind)) == Ok(kind)
    ensures SelectStore(version).Ok? <==> version == 0 || version == 1
    ensures SelectStore(version).Ok? ==> Version(SelectStore(version).value) == version
  {
  }
}
