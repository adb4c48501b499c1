/** The deployment packager: which files it takes, and why what it builds passes
    its own verification. */
module Packager {
  import opened Wrappers

  type Bytes = seq<bv8>

  const MANIFEST := "docmind-manifest.json"
  const SCHEMA := "docmind-package-v1"

  /** The parts of the packager that only inspect one name or one text. */
  datatype Rules = Rules(
    safe: string -> bool,
    markdown: string -> bool,
    links: string -> seq<string>,
    sha256: Bytes -> string,
    commitHash: string -> bool)

  // ------------------------------------------------------------- closure

  /** A link target that may be added. */
  predicate Eligible(rules: Rules, tracked: set<string>, target: string) {
    target in tracked && rules.safe(target) && rules.markdown(target)
  }

  /** A chain of links from a selected document. */
  ghost predicate Chain(rules: Rules, tracked: set<string>, selected: set<string>, chain: seq<string>) {
    && chain != [] && chain[0] in selected && rules.markdown(chain[0])
    && forall i :: 0 < i < |chain| ==> chain[i] in rules.links(chain[i - 1]) && Eligible(rules, tracked, chain[i])
  }

  ghost predicate Linked(rules: Rules, tracked: set<string>, selected: set<string>, name: string) {
    exists chain :: Chain(rules, tracked, selected, chain) && chain[|chain| - 1] == name
  }

  lemma LinkedNext(rules: Rules, tracked: set<string>, selected: set<string>, name: string, target: string)
    requires Linked(rules, tracked, selected, name) && target in rules.links(name) && Eligible(rules, tracked, target)
    ensures Linked(rules, tracked, selected, target)
  {
    var chain :| Chain(rules, tracked, selected, chain) && chain[|chain| - 1] == name;
    var longer := chain + [target];
    assert Chain(rules, tracked, selected, longer);
    assert longer[|longer| - 1] == target;
  }

  /** Any set that holds the selected files and is closed under eligible links
      from documents holds every linked document: the closure is the least one. */
  lemma {:induction false} ClosedHoldsChain(rules: Rules, tracked: set<string>, selected: set<string>, paths: set<string>, chain: seq<string>, n: nat)
    requires Chain(rules, tracked, selected, chain) && n < |chain| && selected <= paths
    requires forall name, target :: name in paths && rules.markdown(name) && target in rules.links(name) && Eligible(rules, tracked, target) ==> target in paths
    ensures chain[n] in paths && rules.markdown(chain[n])
  {
    if n > 0 { ClosedHoldsChain(rules, tracked, selected, paths, chain, n - 1); }
  }

  /** What every turn of the worklist knows: collected documents are queued or
      visited, visited ones are closed under links, and nothing else got in. */
  ghost predicate Working(rules: Rules, tracked: set<string>, selected: set<string>, paths: set<string>, pending: seq<string>, visited: set<string>) {
    && selected <= paths <= tracked && visited <= tracked
    && (forall name :: name in pending ==> name in paths && rules.markdown(name))
    && (forall name :: name in paths && rules.markdown(name) ==> name in pending || name in visited)
    && (forall name :: name in paths ==> name in selected || Linked(rules, tracked, selected, name))
    && (forall name, target :: name in visited && target in rules.links(name) && Eligible(rules, tracked, target) ==> target in paths)
  }

  lemma DocumentLinked(rules: Rules, tracked: set<string>, selected: set<string>, name: string)
    requires (name in selected || Linked(rules, tracked, selected, name)) && rules.markdown(name)
    ensures Linked(rules, tracked, selected, name)
  {
    if name in selected { assert Chain(rules, tracked, selected, [name]) && [name][0] == name; }
  }

  /** The worklist terminates with exactly the selected paths and the documents
      linked from them through tracked, safe Markdown files. */
  method Collect(rules: Rules, tracked: set<string>, selected: set<string>) returns (paths: set<string>)
    requires selected <= tracked
    ensures paths <= tracked
    ensures forall name :: name in paths <==> name in selected || Linked(rules, tracked, selected, name)
  {
    paths := selected;
    var pending := Documents(rules, selected);
    var visited: set<string> := {};
    while pending != []
      invariant Working(rules, tracked, selected, paths, pending, visited)
      decreases tracked - visited, |pending|
    {
      var name := pending[|pending| - 1];
      ghost var before := pending;
      pending := pending[..|pending| - 1];
      assert before == pending + [name] && name in before;
      if name !in visited {
        visited := visited + {name};
        DocumentLinked(rules, tracked, selected, name);
        paths, pending := Follow(rules, tracked, selected, paths, pending, name);
      }
    }
    WorkDone(rules, tracked, selected, paths, visited);
  }

  lemma WorkDone(rules: Rules, tracked: set<string>, selected: set<string>, paths: set<string>, visited: set<string>)
    requires Working(rules, tracked, selected, paths, [], visited)
    ensures forall name :: name in paths <==> name in selected || Linked(rules, tracked, selected, name)
  {
    forall name | Linked(rules, tracked, selected, name) ensures name in paths {
      var chain :| Chain(rules, tracked, selected, chain) && chain[|chain| - 1] == name;
      ClosedHoldsChain(rules, tracked, selected, paths, chain, |chain| - 1);
    }
  }

  /** The loop over the links of one document. */
  method Follow(rules: Rules, tracked: set<string>, ghost selected: set<string>, paths: set<string>, pending: seq<string>, name: string)
    returns (more: set<string>, queue: seq<string>)
    requires paths <= tracked && Linked(rules, tracked, selected, name)
    ensures paths <= more <= tracked
    ensures forall n :: n in queue <==> n in pending || (n in more && n !in paths)
    ensures forall n :: n in more && n !in paths ==> rules.markdown(n) && Linked(rules, tracked, selected, n)
    ensures forall target :: target in rules.links(name) && Eligible(rules, tracked, target) ==> target in more
  {
    more, queue := paths, pending;
    var links := rules.links(name);
    for i := 0 to |links|
      invariant paths <= more <= tracked
      invariant forall n :: n in queue <==> n in pending || (n in more && n !in paths)
      invariant forall n :: n in more && n !in paths ==> rules.markdown(n) && Linked(rules, tracked, selected, n)
      invariant forall j :: 0 <= j < i && Eligible(rules, tracked, links[j]) ==> links[j] in more
    {
      var target := links[i];
      if target in tracked && rules.safe(target) && rules.markdown(target) && target !in more {
        LinkedNext(rules, tracked, selected, name, target);
        more := more + {target};
        queue := queue + [target];
      }
    }
  }

  method Documents(rules: Rules, names: set<string>) returns (documents: seq<string>)
    ensures forall name :: name in documents <==> name in names && rules.markdown(name)
  {
    documents := [];
    var rest := names;
    while rest != {}
      invariant rest <= names
      invariant forall name :: name in documents <==> name in names && name !in rest && rules.markdown(name)
      decreases rest
    {
      var name :| name in rest;
      if rules.markdown(name) { documents := documents + [name]; }
      rest := rest - {name};
    }
  }

  // -------------------------------------------------------- build and verify

  datatype Row = Row(path: string, bytes: nat, sha256: string)

  datatype Manifest = Manifest(schema: string, commit: string, files: seq<Row>)

  /** A member of the archive; the manifest member decodes to what was written. */
  datatype Content = Blob(data: Bytes) | Index(manifest: Manifest)

  type Archive = seq<(string, Content)>

  predicate DistinctNames(archive: Archive) {
    forall i, j :: 0 <= i < j < |archive| ==> archive[i].0 != archive[j].0
  }

  function RowOf(rules: Rules, file: (string, Bytes)): Row { Row(file.0, |file.1|, rules.sha256(file.1)) }

  /** The archive written for the exported files: one member and one row each,
      then the manifest. */
  function Built(rules: Rules, schema: string, commit: string, files: seq<(string, Bytes)>): Archive {
    seq(|files|, i requires 0 <= i < |files| => (files[i].0, Blob(files[i].1)))
    + [(MANIFEST, Index(Manifest(schema, commit, seq(|files|, i requires 0 <= i < |files| => RowOf(rules, files[i])))))]
  }

  /** A member that is the manifest row's own content. */
  predicate RowMatches(rules: Rules, archive: Archive, row: Row) {
    && rules.safe(row.path)
    && exists i :: 0 <= i < |archive| && archive[i].0 == row.path && archive[i].1.Blob?
         && |archive[i].1.data| == row.bytes && rules.sha256(archive[i].1.data) == row.sha256
  }

  /** What verification accepts. */
  ghost predicate Acceptable(rules: Rules, archive: Archive) {
    && DistinctNames(archive)
    && exists m :: 0 <= m < |archive| && archive[m].0 == MANIFEST && archive[m].1.Index?
         && AcceptsManifest(rules, archive, archive[m].1.manifest)
  }

  ghost predicate AcceptsManifest(rules: Rules, archive: Archive, manifest: Manifest) {
    && manifest.schema == SCHEMA && rules.commitHash(manifest.commit)
    && (forall i, j :: 0 <= i < j < |manifest.files| ==> manifest.files[i].path != manifest.files[j].path)
    && (forall i :: 0 <= i < |archive| ==> archive[i].0 == MANIFEST || exists j :: 0 <= j < |manifest.files| && manifest.files[j].path == archive[i].0)
    && (forall j :: 0 <= j < |manifest.files| ==> RowMatches(rules, archive, manifest.files[j]))
  }

  predicate Named(archive: Archive, name: string) { exists i :: 0 <= i < |archive| && archive[i].0 == name }

  predicate Listed(manifest: Manifest, name: string) { exists j :: 0 <= j < |manifest.files| && manifest.files[j].path == name }

  /** The manifest describes the archive: no name or row twice, the members are
      the manifest and the listed files and no others, and each file is safe and
      has the listed length and hash. */
  ghost predicate Describes(rules: Rules, archive: Archive, manifest: Manifest) {
    && manifest.schema == "docmind-package-v1" && rules.commitHash(manifest.commit)
    && (forall i, j :: 0 <= i < j < |archive| ==> archive[i].0 != archive[j].0)
    && (forall i, j :: 0 <= i < j < |manifest.files| ==> manifest.files[i].path != manifest.files[j].path)
    && (forall name :: Named(archive, name) <==> name == MANIFEST || Listed(manifest, name))
    && (forall i, j :: 0 <= i < |archive| && 0 <= j < |manifest.files| && archive[i].0 == manifest.files[j].path ==>
          && rules.safe(archive[i].0) && archive[i].1.Blob?
          && |archive[i].1.data| == manifest.files[j].bytes && rules.sha256(archive[i].1.data) == manifest.files[j].sha256)
  }

  lemma AcceptableMeans(rules: Rules, archive: Archive)
    ensures Acceptable(rules, archive) <==>
            exists m :: 0 <= m < |archive| && archive[m].0 == MANIFEST && archive[m].1.Index? && Describes(rules, archive, archive[m].1.manifest)
  {
    if m :| 0 <= m < |archive| && archive[m].0 == MANIFEST && archive[m].1.Index? && AcceptsManifest(rules, archive, archive[m].1.manifest) {
      if DistinctNames(archive) { AcceptedDescribes(rules, archive, m); }
    }
    if m :| 0 <= m < |archive| && archive[m].0 == MANIFEST && archive[m].1.Index? && Describes(rules, archive, archive[m].1.manifest) {
      DescribedAccepts(rules, archive, m);
    }
  }

  lemma AcceptedDescribes(rules: Rules, archive: Archive, m: nat)
    requires DistinctNames(archive) && m < |archive| && archive[m].0 == MANIFEST && archive[m].1.Index?
    requires AcceptsManifest(rules, archive, archive[m].1.manifest)
    ensures Describes(rules, archive, archive[m].1.manifest)
  {
    var manifest := archive[m].1.manifest;
    forall j | 0 <= j < |manifest.files| ensures RowMatches(rules, archive, manifest.files[j]) {}
    forall name ensures Named(archive, name) <==> name == MANIFEST || Listed(manifest, name) {
      if Listed(manifest, name) {
        var j :| 0 <= j < |manifest.files| && manifest.files[j].path == name;
        assert RowMatches(rules, archive, manifest.files[j]);
      }
    }
  }

  lemma DescribedAccepts(rules: Rules, archive: Archive, m: nat)
    requires m < |archive| && archive[m].0 == MANIFEST && archive[m].1.Index? && Describes(rules, archive, archive[m].1.manifest)
    ensures Acceptable(rules, archive)
  {
    var manifest := archive[m].1.manifest;
    forall j | 0 <= j < |manifest.files| ensures RowMatches(rules, archive, manifest.files[j]) {
      assert Listed(manifest, manifest.files[j].path);
      assert Named(archive, manifest.files[j].path);
    }
    forall i | 0 <= i < |archive|
      ensures archive[i].0 == MANIFEST || exists j :: 0 <= j < |manifest.files| && manifest.files[j].path == archive[i].0
    {
      assert Named(archive, archive[i].0);
    }
  }

  /** Where the manifest describes the archive it does not describe one with a
      file's bytes replaced by others, unless length and hash are the same. */
  lemma TamperedDiffers(rules: Rules, archive: Archive, manifest: Manifest, i: nat, data: Bytes)
    requires Describes(rules, archive, manifest) && i < |archive| && archive[i].1.Blob? && archive[i].0 != MANIFEST
    requires |data| != |archive[i].1.data| || rules.sha256(data) != rules.sha256(archive[i].1.data)
    ensures !Describes(rules, archive[i := (archive[i].0, Blob(data))], manifest)
  {
    var tampered := archive[i := (archive[i].0, Blob(data))];
    assert Named(archive, archive[i].0);
    var j :| 0 <= j < |manifest.files| && manifest.files[j].path == archive[i].0;
    assert tampered[i] == (manifest.files[j].path, Blob(data));
  }

  /** So an accepted archive is refused after that. */
  lemma TamperedRefused(rules: Rules, archive: Archive, i: nat, data: Bytes)
    requires Acceptable(rules, archive) && i < |archive| && archive[i].1.Blob?
    requires |data| != |archive[i].1.data| || rules.sha256(data) != rules.sha256(archive[i].1.data)
    ensures !Acceptable(rules, archive[i := (archive[i].0, Blob(data))])
  {
    var tampered := archive[i := (archive[i].0, Blob(data))];
    AcceptableMeans(rules, archive);
    var m :| 0 <= m < |archive| && archive[m].0 == MANIFEST && archive[m].1.Index? && Describes(rules, archive, archive[m].1.manifest);
    assert archive[i].0 != MANIFEST;
    TamperedDiffers(rules, archive, archive[m].1.manifest, i, data);
    AcceptableMeans(rules, tampered);
    forall n | 0 <= n < |tampered| && tampered[n].0 == MANIFEST ensures n == m { assert archive[n].0 == MANIFEST; }
  }

  method Verify(rules: Rules, archive: Archive) returns (ok: bool)
    ensures ok <==> Acceptable(rules, archive)
  {
    var names: set<string> := {};
    var found: Option<Manifest> := None;
    ghost var at := 0;
    for i := 0 to |archive|
      invariant forall a, b :: 0 <= a < b < i ==> archive[a].0 != archive[b].0
      invariant names == set a | 0 <= a < i :: archive[a].0
      invariant MANIFEST !in names ==> found.None?
      invariant found.Some? ==> 0 <= at < i && archive[at] == (MANIFEST, Index(found.value))
      invariant forall a :: 0 <= a < i && archive[a].0 == MANIFEST && archive[a].1.Index? ==> found == Some(archive[a].1.manifest)
    {
      if archive[i].0 in names { return false; }
      names := names + {archive[i].0};
      if archive[i].0 == MANIFEST && archive[i].1.Index? {
        found := Some(archive[i].1.manifest);
        at := i;
      }
    }
    if found.None? { return false; }
    ok := VerifyManifest(rules, archive, found.value);
  }

  method VerifyManifest(rules: Rules, archive: Archive, manifest: Manifest) returns (ok: bool)
    ensures ok <==> AcceptsManifest(rules, archive, manifest)
  {
    if manifest.schema != SCHEMA || !rules.commitHash(manifest.commit) { return false; }
    var expected: set<string> := {};
    for j := 0 to |manifest.files|
      invariant expected == set a | 0 <= a < j :: manifest.files[a].path
      invariant forall a, b :: 0 <= a < b < j ==> manifest.files[a].path != manifest.files[b].path
    {
      if manifest.files[j].path in expected { return false; }
      expected := expected + {manifest.files[j].path};
    }
    for i := 0 to |archive|
      invariant forall a :: 0 <= a < i ==> archive[a].0 == MANIFEST || archive[a].0 in expected
    {
      if archive[i].0 != MANIFEST && archive[i].0 !in expected { return false; }
    }
    for j := 0 to |manifest.files|
      invariant forall a :: 0 <= a < j ==> RowMatches(rules, archive, manifest.files[a])
    {
      if !RowMatches(rules, archive, manifest.files[j]) { return false; }
    }
    return true;
  }

  /** The files an export delivers: each collected path once. */
  ghost predicate Exports(files: seq<(string, Bytes)>, paths: set<string>) {
    && (forall i :: 0 <= i < |files| ==> files[i].0 in paths)
    && (forall path :: path in paths ==> exists i :: 0 <= i < |files| && files[i].0 == path)
    && (forall i, j :: 0 <= i < j < |files| ==> files[i].0 != files[j].0)
  }

  /** A build over safe paths verifies exactly when its schema and commit are
      the expected ones and no collected path has the manifest's own name. */
  lemma BuildVerifiesIff(rules: Rules, schema: string, commit: string, files: seq<(string, Bytes)>, paths: set<string>)
    requires Exports(files, paths) && forall path :: path in paths ==> rules.safe(path)
    ensures Acceptable(rules, Built(rules, schema, commit, files)) <==>
            schema == SCHEMA && rules.commitHash(commit) && MANIFEST !in paths
  {
    var archive := Built(rules, schema, commit, files);
    var n := |files|;
    assert archive[n].0 == MANIFEST;
    if MANIFEST in paths {
      var i :| 0 <= i < n && files[i].0 == MANIFEST;
      assert archive[i].0 == archive[n].0;
    } else {
      BuiltDistinct(rules, schema, commit, files);
      BuiltManifest(rules, schema, commit, files);
      assert AcceptsManifest(rules, archive, archive[n].1.manifest) <==> schema == SCHEMA && rules.commitHash(commit);
      forall m | 0 <= m < |archive| && archive[m].0 == MANIFEST ensures m == n {}
    }
  }

  lemma BuiltDistinct(rules: Rules, schema: string, commit: string, files: seq<(string, Bytes)>)
    requires forall i, j :: 0 <= i < j < |files| ==> files[i].0 != files[j].0
    requires forall i :: 0 <= i < |files| ==> files[i].0 != MANIFEST
    ensures DistinctNames(Built(rules, schema, commit, files))
  {
  }

  lemma BuiltManifest(rules: Rules, schema: string, commit: string, files: seq<(string, Bytes)>)
    requires forall i, j :: 0 <= i < j < |files| ==> files[i].0 != files[j].0
    requires forall i :: 0 <= i < |files| ==> rules.safe(files[i].0)
    ensures var archive := Built(rules, schema, commit, files);
            && archive[|files|].1.Index?
            && (AcceptsManifest(rules, archive, archive[|files|].1.manifest) <==> schema == SCHEMA && rules.commitHash(commit))
  {
    var archive := Built(rules, schema, commit, files);
    var rows := archive[|files|].1.manifest.files;
    forall j | 0 <= j < |files| ensures RowMatches(rules, archive, rows[j]) {
      assert rows[j] == RowOf(rules, files[j]) && archive[j] == (files[j].0, Blob(files[j].1));
    }
    forall i | 0 <= i < |archive|
      ensures archive[i].0 == MANIFEST || exists j :: 0 <= j < |rows| && rows[j].path == archive[i].0
    {
      if i < |files| { assert rows[i].path == archive[i].0; }
    }
  }

  /** Everything collected from safe selected paths is safe. */
  lemma CollectedSafe(rules: Rules, tracked: set<string>, selected: set<string>, name: string)
    requires forall path :: path in selected ==> rules.safe(path)
    requires name in selected || Linked(rules, tracked, selected, name)
    ensures rules.safe(name)
  {
    if name !in selected {
      var chain :| Chain(rules, tracked, selected, chain) && chain[|chain| - 1] == name;
      if |chain| > 1 { assert Eligible(rules, tracked, chain[|chain| - 1]); }
    }
  }
}
