/**
 The signed-component handoff between build stages (desktop/scripts/signing_handoff.py): a manifest is built
 from a tree, written together with the files into an archive, verified by the consumer and extracted.

 The archive is an abstract container of named contents, JSON is decoded as it was encoded, and the digest is an
 arbitrary function. Bytes are characters, one for each byte.
 */
module Handoff {
  import opened Wrappers

  // ---------- paths ----------

  /** The components of a POSIX path; empty ones and "." disappear. */
  function Parts(path: string): seq<string> {
    PartsFrom(path, "")
  }

  function PartsFrom(path: string, current: string): seq<string> {
    if path == [] then Component(current)
    else if path[0] == '/' then Component(current) + PartsFrom(path[1..], "")
    else PartsFrom(path[1..], current + [path[0]])
  }

  function Component(current: string): seq<string> {
    if current == "" || current == "." then [] else [current]
  }

  function Posix(parts: seq<string>): string {
    if parts == [] then ""
    else if |parts| == 1 then parts[0]
    else parts[0] + "/" + Posix(parts[1..])
  }

  predicate Absolute(path: string) {
    path != [] && path[0] == '/'
  }

  ghost predicate CleanPart(part: string) {
    part != "" && part != "." && part != ".." && '/' !in part
  }

  ghost predicate CleanPath(p: seq<string>) {
    p != [] && forall part :: part in p ==> CleanPart(part)
  }

  /** The components of a path that stays inside the Desktop tree. */
  function SafeRelativePath(path: string): Option<seq<string>> {
    var parts := Parts(path);
    if Absolute(path) || parts == [] || ".." in parts || "." in parts then None
    else if parts[0] != "desktop" then None
    else Some(parts)
  }

  lemma {:induction false} PartsOfPlain(part: string, rest: string, current: string)
    requires '/' !in part
    ensures PartsFrom(part + rest, current) == PartsFrom(rest, current + part)
    decreases |part|
  {
    if part == [] {
      assert part + rest == rest && current + part == current;
    } else {
      assert (part + rest)[1..] == part[1..] + rest;
      PartsOfPlain(part[1..], rest, current + [part[0]]);
      assert (current + [part[0]]) + part[1..] == current + part;
    }
  }

  /** Joining clean components and splitting the result gives them back. */
  lemma {:induction false} PartsOfPosix(p: seq<string>)
    requires CleanPath(p)
    ensures Parts(Posix(p)) == p && !Absolute(Posix(p))
    decreases |p|
  {
    assert CleanPart(p[0]);
    if |p| == 1 {
      PartsOfPlain(p[0], "", "");
      assert p[0] + "" == p[0] && "" + p[0] == p[0];
    } else {
      var rest := "/" + Posix(p[1..]);
      assert Posix(p) == p[0] + rest;
      PartsOfPlain(p[0], rest, "");
      assert "" + p[0] == p[0] && rest[1..] == Posix(p[1..]);
      PartsOfPosix(p[1..]);
    }
  }

  /** Splitting at a slash splits the rest independently: the components are those of both sides. */
  lemma {:induction false} PartsAtSlash(left: string, right: string, current: string)
    ensures PartsFrom(left + "/" + right, current) == PartsFrom(left, current) + Parts(right)
    decreases |left|
  {
    var path := left + "/" + right;
    if left == [] {
      assert path[0] == '/' && path[1..] == right;
    } else {
      assert path[0] == left[0] && path[1..] == left[1..] + "/" + right;
      if left[0] == '/' {
        PartsAtSlash(left[1..], right, "");
      } else {
        PartsAtSlash(left[1..], right, current + [left[0]]);
      }
    }
  }

  /** What a path is split into: at every slash, dropping empty components and ".", and nothing else. */
  lemma PartsMeans(left: string, right: string, part: string)
    requires '/' !in part
    ensures Parts(left + "/" + right) == Parts(left) + Parts(right)
    ensures Parts(part) == if part == "" || part == "." then [] else [part]
  {
    PartsAtSlash(left, right, "");
    PartsOfPlain(part, "", "");
    assert part + "" == part && "" + part == part;
  }

  lemma {:induction false} PartsAreParts(path: string, current: string)
    requires '/' !in current
    ensures forall part :: part in PartsFrom(path, current) ==> part != "" && part != "." && '/' !in part
    decreases |path|
  {
    if path != [] {
      PartsAreParts(path[1..], if path[0] == '/' then "" else current + [path[0]]);
    }
  }

  /** Between two slashes, or a slash and an end, the path reads `part`. */
  ghost predicate Between(path: string, part: string, i: int, j: int) {
    && 0 <= i <= j <= |path| && path[i..j] == part
    && (i == 0 || path[i - 1] == '/') && (j == |path| || path[j] == '/')
  }

  lemma FirstSlash(path: string) returns (i: nat)
    requires '/' in path
    ensures i < |path| && path[i] == '/' && '/' !in path[..i]
  {
    i := 0;
    while path[i] != '/'
      invariant i < |path| && '/' !in path[..i] && '/' in path[i..]
      decreases |path| - i
    {
      assert path[i..] == [path[i]] + path[i + 1..] && path[..i + 1] == path[..i] + [path[i]];
      i := i + 1;
    }
  }

  lemma NoSlashInside(path: string, i: nat, j: nat)
    requires i <= j <= |path| && '/' !in path[i..j]
    ensures forall k :: i <= k < j ==> path[k] != '/'
  {
    forall k | i <= k < j ensures path[k] != '/' { assert path[k] == path[i..j][k - i]; }
  }

  lemma BetweenAtSlash(path: string, part: string, n: nat)
    requires '/' !in part && n < |path| && path[n] == '/' && '/' !in path[0..n]
    ensures var rest := path[n + 1..];
            (exists i, j :: Between(path, part, i, j)) <==>
            path[..n] == part || exists i, j :: Between(rest, part, i, j)
  {
    var rest := path[n + 1..];
    if i, j :| Between(path, part, i, j) {
      if i <= n {
        NoSlashInside(path, i, j);
        NoSlashInside(path, 0, n);
        assert i == 0 && j == n;
      } else {
        assert rest[i - n - 1..j - n - 1] == path[i..j];
        assert i > n + 1 ==> rest[i - n - 2] == path[i - 1];
        assert Between(rest, part, i - n - 1, j - n - 1);
      }
    }
    if path[..n] == part { assert Between(path, part, 0, n); }
    if i, j :| Between(rest, part, i, j) {
      assert path[i + n + 1..j + n + 1] == rest[i..j];
      assert Between(path, part, i + n + 1, j + n + 1);
    }
  }

  /** A proper name is a component of a path exactly when the path reads it between slashes. */
  lemma {:induction false} PartIff(path: string, part: string)
    requires '/' !in part && part != "" && part != "."
    ensures part in Parts(path) <==> exists i, j :: Between(path, part, i, j)
    decreases |path|
  {
    hide PartsFrom;
    if '/' in path {
      var n := FirstSlash(path);
      var left, rest := path[..n], path[n + 1..];
      assert path == left + "/" + rest;
      PartsMeans(left, rest, left);
      PartIff(rest, part);
      BetweenAtSlash(path, part, n);
    } else {
      PartsMeans("", "", path);
      assert path[..|path|] == path;
      assert path == part ==> Between(path, part, 0, |path|);
    }
  }

  /**
   Exactly the relative paths under desktop without ".." are accepted, whatever the string; the result are their
   components, all of them proper names.
   */
  lemma SafeIff(path: string)
    ensures var parts := Parts(path);
            && (SafeRelativePath(path).Some? <==>
                  !(path != [] && path[0] == '/') && parts != [] && parts[0] == "desktop"
                  && forall part :: part in parts ==> part != "..")
            && (SafeRelativePath(path).Some? ==> SafeRelativePath(path).value == parts && CleanPath(parts))
  {
    PartsAreParts(path, "");
  }

  lemma SafeIffUnderDesktop(p: seq<string>)
    requires CleanPath(p)
    ensures SafeRelativePath(Posix(p)) == if p[0] == "desktop" then Some(p) else None
  {
    PartsOfPosix(p);
    assert forall part :: part in p ==> CleanPart(part);
  }

  // ---------- trees, manifests, archives ----------

  datatype Node = File(bytes: string, mode: int) | Link(target: string, mode: int)

  type Tree = map<seq<string>, Node>

  /** A manifest that is read may hold anything; a record may be no record at all. */
  datatype Record = Junk | Record(path: string, kind: string, size: int, digest: string, mode: Option<int>)

  datatype Identity = Identity(
    repository: string, tag: string, version: string, commit: string, platform: string, stage: string)

  datatype Manifest = Manifest(
    schema: int, kind: string, identity: Identity, publisher: Option<string>,
    signTargets: Option<seq<string>>, files: Option<seq<Record>>)

  datatype Content = Json(manifest: Manifest) | Bytes(bytes: string)

  datatype Entry = Entry(name: string, content: Content)

  type Archive = seq<Entry>

  datatype Error =
    | BadIdentity | MissingInput | BadArchive | Mismatch | BadFiles | UnsafePath | Unmanifested | Duplicates
    | BadTargets | UnsafeLink | EmptyLink | Exists | NoDirectory | Outward

  const MANIFEST_NAME := "handoff-manifest.json"
  const KIND := "iac-code-desktop-signing-handoff"

  function FileBytes(node: Node): string {
    match node
    case File(bytes, _) => bytes
    case Link(target, _) => target
  }

  function FileRecord(tree: Tree, p: seq<string>, digest: string -> string): Record
    requires p in tree
  {
    var content := FileBytes(tree[p]);
    Record(Posix(p), if tree[p].Link? then "symlink" else "file", |content|, digest(content), Some(tree[p].mode))
  }

  function FileRecords(tree: Tree, paths: seq<seq<string>>, digest: string -> string): seq<Record>
    requires forall p :: p in paths ==> p in tree
  {
    seq(|paths|, i requires 0 <= i < |paths| => FileRecord(tree, paths[i], digest))
  }

  /**
   A tree on disk: clean paths, permission bits only, links that name something, and nothing below a file or a link.
   */
  ghost predicate TreeOk(tree: Tree) {
    && (forall p :: p in tree ==> CleanPath(p) && 0 <= tree[p].mode <= 4095 && (tree[p].Link? ==> tree[p].target != ""))
    && (forall p, q :: p in tree && q in tree && p <= q ==> p == q)
  }

  // ---------- building ----------

  predicate IsNumber(s: string) {
    s != "" && (forall c :: c in s ==> '0' <= c <= '9') && (s == "0" || s[0] != '0')
  }

  /** The decimal form of a number. */
  ghost function Decimal(n: nat): string {
    if n < 10 then ['0' + n as char] else Decimal(n / 10) + ['0' + (n % 10) as char]
  }

  lemma {:induction false} DecimalIsNumber(n: nat)
    ensures IsNumber(Decimal(n)) && (n > 0 ==> Decimal(n)[0] != '0')
  {
    if n >= 10 { DecimalIsNumber(n / 10); }
  }

  lemma {:induction false} NumberIsDecimal(s: string) returns (n: nat)
    requires IsNumber(s)
    ensures Decimal(n) == s
  {
    var k := |s| - 1;
    assert s[k] in s;
    var digit := (s[k] - '0') as int;
    if k == 0 {
      n := digit;
    } else {
      assert s[..k][0] == s[0] && forall c :: c in s[..k] ==> c in s;
      var high := NumberIsDecimal(s[..k]);
      assert Decimal(0)[0] == '0' && Decimal(high)[0] == s[0];
      n := 10 * high + digit;
      assert s == s[..k] + [s[k]];
    }
  }

  predicate IsReleaseTag(tag: string) {
    exists i, j :: 1 < i < j < |tag| && tag[0] == 'v' && tag[i] == '.' && tag[j] == '.'
                   && IsNumber(tag[1..i]) && IsNumber(tag[i + 1..j]) && IsNumber(tag[j + 1..])
  }

  ghost predicate IsVersion(tag: string, a: nat, b: nat, c: nat) {
    tag == "v" + Decimal(a) + "." + Decimal(b) + "." + Decimal(c)
  }

  lemma VersionIsTag(tag: string, a: nat, b: nat, c: nat)
    requires IsVersion(tag, a, b, c)
    ensures IsReleaseTag(tag)
  {
    hide Decimal, IsNumber;
    DecimalIsNumber(a);
    DecimalIsNumber(b);
    DecimalIsNumber(c);
    NumberIsNotEmpty(Decimal(a));
    NumberIsNotEmpty(Decimal(b));
    NumberIsNotEmpty(Decimal(c));
    var i := 1 + |Decimal(a)|;
    var j := i + 1 + |Decimal(b)|;
    assert tag[1..i] == Decimal(a);
    assert tag[i + 1..j] == Decimal(b);
    assert tag[j + 1..] == Decimal(c);
    assert tag[i] == '.' && tag[j] == '.';
  }

  lemma NumberIsNotEmpty(s: string)
    requires IsNumber(s)
    ensures s != ""
  {
  }

  lemma TagIsVersion(tag: string) returns (a: nat, b: nat, c: nat)
    requires IsReleaseTag(tag)
    ensures IsVersion(tag, a, b, c)
  {
    hide Decimal, IsNumber;
    var i, j :| 1 < i < j < |tag| && tag[0] == 'v' && tag[i] == '.' && tag[j] == '.'
                && IsNumber(tag[1..i]) && IsNumber(tag[i + 1..j]) && IsNumber(tag[j + 1..]);
    a := NumberIsDecimal(tag[1..i]);
    b := NumberIsDecimal(tag[i + 1..j]);
    c := NumberIsDecimal(tag[j + 1..]);
    assert tag == "v" + tag[1..i] + "." + tag[i + 1..j] + "." + tag[j + 1..];
  }

  /** Exactly the tags of three numbers in decimal form are release tags. */
  lemma ReleaseTagIff(tag: string)
    ensures IsReleaseTag(tag) <==> exists a, b, c :: IsVersion(tag, a, b, c)
  {
    hide IsReleaseTag, IsVersion;
    if IsReleaseTag(tag) { var a, b, c := TagIsVersion(tag); }
    if a, b, c :| IsVersion(tag, a, b, c) { VersionIsTag(tag, a, b, c); }
  }

  predicate IsFullSha(commit: string) {
    |commit| == 40 && forall c :: c in commit ==> '0' <= c <= '9' || 'a' <= c <= 'f'
  }

  predicate IdentityOk(id: Identity, publisher: string) {
    && id.platform in {"macos-aarch64", "windows-x64"}
    && IsReleaseTag(id.tag) && id.version == id.tag[1..]
    && IsFullSha(id.commit)
    && id.stage in {"unsigned-components", "signed-components"}
    && (id.stage == "signed-components" ==> publisher != "")
  }

  function Required(platform: string): seq<seq<string>> {
    var release := ["desktop", "src-tauri", "target", "release"];
    if platform == "windows-x64" then
      var helpers := ["desktop", "dist", "native-helpers", "windows", "release"];
      [release + ["iac-code-desktop.exe"], helpers + ["iac-code-desktop-updater.exe"],
       helpers + ["iac-code-desktop-updater.manifest.json"]]
    else
      [release + ["iac-code-desktop"],
       ["desktop", "dist", "native-helpers", "macos", "release", "iac-code-desktop-exec"]]
  }

  const SIDECAR: seq<string> := ["desktop", "dist", "sidecar", "iac-code-sidecar"]

  /** `paths` lists the required files and everything in the sidecar directory, each once. */
  ghost predicate Selects(tree: Tree, platform: string, paths: seq<seq<string>>) {
    && (forall p :: p in paths <==> p in Required(platform) || (p in tree && SIDECAR < p))
    && (forall i, j :: 0 <= i < j < |paths| ==> paths[i] != paths[j])
  }

  const TARGETS := {
    "iac-code-desktop", "iac-code-desktop.exe", "iac-code-desktop-exec", "iac-code-desktop-updater.exe",
    "iac-code-sidecar", "iac-code-sidecar.exe", "iac-code-tf2ros", "iac-code-tf2ros.exe"}

  predicate IsTarget(p: seq<string>) {
    p != [] && p[|p| - 1] in TARGETS
  }

  function SignTargets(paths: seq<seq<string>>): (r: seq<string>)
    requires forall p :: p in paths ==> p != []
    ensures forall t :: t in r ==> exists p :: p in paths && Posix(p) == t
  {
    if paths == [] then []
    else
      assert paths[0] in paths && forall p :: p in paths[1..] ==> p in paths;
      var rest := SignTargets(paths[1..]);
      (if IsTarget(paths[0]) then [Posix(paths[0])] else []) + rest
  }

  /** The files to be signed are exactly the selected ones with one of the eight names. */
  lemma {:induction false} SignTargetsExact(paths: seq<seq<string>>, t: string)
    requires forall p :: p in paths ==> p != []
    ensures t in SignTargets(paths) <==>
            exists p :: p in paths && p != [] && p[|p| - 1] in TARGETS && Posix(p) == t
  {
    hide Posix;
    if paths != [] {
      assert forall p :: p in paths <==> p == paths[0] || p in paths[1..];
      SignTargetsExact(paths[1..], t);
    }
  }

  function BuildManifest(tree: Tree, paths: seq<seq<string>>, id: Identity, publisher: string, digest: string -> string)
    : Result<Manifest, Error>
    requires forall p :: p in paths ==> p != []
  {
    if !IdentityOk(id, publisher) then Err(BadIdentity)
    else if exists p :: p in paths && p !in tree then Err(MissingInput)
    else Ok(Manifest(1, KIND, id, if publisher == "" then None else Some(publisher),
                     Some(SignTargets(paths)), Some(FileRecords(tree, paths, digest))))
  }

  /**
   A manifest is built exactly for a known platform, a release tag with its version, a full commit and a known stage,
   with a publisher when signed, and when every selected file is there; it records them in order.
   */
  lemma ManifestBuiltIff(tree: Tree, paths: seq<seq<string>>, id: Identity, publisher: string,
                         digest: string -> string)
    requires forall p :: p in paths ==> p != []
    ensures var r := BuildManifest(tree, paths, id, publisher, digest);
            && (r == Err(BadIdentity) <==>
                  !(&& (id.platform == "macos-aarch64" || id.platform == "windows-x64")
                    && (exists a, b, c :: IsVersion(id.tag, a, b, c)) && "v" + id.version == id.tag
                    && |id.commit| == 40 && (forall c :: c in id.commit ==> c in "0123456789abcdef")
                    && (id.stage == "unsigned-components" || (id.stage == "signed-components" && publisher != ""))))
            && (r.Ok? ==>
                  && r.value.identity == id && r.value.schema == 1
                  && (publisher != "" ==> r.value.publisher == Some(publisher))
                  && r.value.files.Some? && |r.value.files.value| == |paths|
                  && forall i :: 0 <= i < |paths| ==>
                       && paths[i] in tree && r.value.files.value[i].Record?
                       && r.value.files.value[i].path == Posix(paths[i])
                       && r.value.files.value[i].kind == (if tree[paths[i]].Link? then "symlink" else "file")
                       && r.value.files.value[i].mode == Some(tree[paths[i]].mode))
  {
    hide Posix, SignTargets, IsReleaseTag, IsVersion;
    ReleaseTagIff(id.tag);
    HexIff(id.commit);
    TagStarts(id.tag, id.version);
  }

  lemma TagStarts(tag: string, version: string)
    ensures IsReleaseTag(tag) ==> tag != "" && (version == tag[1..] <==> "v" + version == tag)
  {
    hide IsNumber;
    assert tag != "" && tag[0] == 'v' ==> tag == "v" + tag[1..];
    assert ("v" + version)[1..] == version;
  }

  lemma HexIff(commit: string)
    ensures (forall c :: c in commit ==> c in "0123456789abcdef") <==>
            forall c :: c in commit ==> '0' <= c <= '9' || 'a' <= c <= 'f'
  {
    forall c ensures c in "0123456789abcdef" <==> '0' <= c <= '9' || 'a' <= c <= 'f' { HexDigit(c); }
  }

  lemma HexDigit(c: char)
    ensures c in "0123456789abcdef" <==> '0' <= c <= '9' || 'a' <= c <= 'f'
  {
    var digits := "0123456789abcdef";
    if '0' <= c <= '9' { assert digits[c as int - '0' as int] == c; }
    if 'a' <= c <= 'f' { assert digits[c as int - 'a' as int + 10] == c; }
  }

  // ---------- writing ----------

  method CreateArchive(tree: Tree, manifest: Manifest) returns (r: Result<Archive, Error>)
    requires manifest.files.Some?
    ensures r.Ok? <==> forall i :: 0 <= i < |manifest.files.value| ==> Readable(tree, manifest.files.value[i])
    ensures r.Ok? ==> IsArchiveOf(tree, manifest, r.value)
  {
    var archive := [Entry(MANIFEST_NAME, Json(manifest))];
    var files := manifest.files.value;
    for k := 0 to |files|
      invariant |archive| == k + 1 && archive[0] == Entry(MANIFEST_NAME, Json(manifest))
      invariant forall i :: 0 <= i < k ==> Readable(tree, files[i])
      invariant forall i :: 0 <= i < k ==>
                  archive[i + 1] == Entry(files[i].path, Bytes(FileBytes(tree[Parts(files[i].path)])))
    {
      if !files[k].Record? || Parts(files[k].path) !in tree {
        return Err(MissingInput);
      }
      archive := archive + [Entry(files[k].path, Bytes(FileBytes(tree[Parts(files[k].path)])))];
    }
    r := Ok(archive);
  }

  predicate Readable(tree: Tree, record: Record) {
    record.Record? && Parts(record.path) in tree
  }

  ghost predicate IsArchiveOf(tree: Tree, manifest: Manifest, archive: Archive) {
    && manifest.files.Some?
    && |archive| == |manifest.files.value| + 1
    && archive[0] == Entry(MANIFEST_NAME, Json(manifest))
    && forall i :: 0 <= i < |manifest.files.value| ==>
         var record := manifest.files.value[i];
         && Readable(tree, record)
         && archive[i + 1] == Entry(record.path, Bytes(FileBytes(tree[Parts(record.path)])))
  }

  // ---------- verifying ----------

  function Names(archive: Archive): seq<string> {
    seq(|archive|, i requires 0 <= i < |archive| => archive[i].name)
  }

  ghost predicate Distinct(names: seq<string>) {
    forall i, j :: 0 <= i < j < |names| ==> names[i] != names[j]
  }

  function Read(archive: Archive, name: string): Option<Content> {
    if archive == [] then None
    else if archive[0].name == name then Some(archive[0].content)
    else Read(archive[1..], name)
  }

  lemma {:induction false} ReadAt(archive: Archive, i: nat)
    requires i < |archive| && Distinct(Names(archive))
    ensures Read(archive, archive[i].name) == Some(archive[i].content)
  {
    if i > 0 {
      assert Names(archive)[0] != Names(archive)[i];
      assert forall k :: 0 <= k < |archive[1..]| ==> Names(archive[1..])[k] == Names(archive)[k + 1];
      ReadAt(archive[1..], i - 1);
    }
  }

  lemma {:induction false} ReadFinds(archive: Archive, name: string)
    ensures Read(archive, name).Some? <==> name in Names(archive)
    ensures Read(archive, name).Some? ==>
              exists i :: 0 <= i < |archive| && archive[i].name == name
                && archive[i].content == Read(archive, name).value
  {
    if archive != [] {
      ReadFinds(archive[1..], name);
      assert Names(archive) == [archive[0].name] + Names(archive[1..]);
      if archive[0].name != name && Read(archive[1..], name).Some? {
        var i :| 0 <= i < |archive[1..]| && archive[1..][i].name == name
          && archive[1..][i].content == Read(archive[1..], name).value;
        assert archive[i + 1].name == name;
      }
    }
  }

  /** The normalised name under which a record's file is stored. */
  function StoredName(record: Record): string
    requires record.Record?
  {
    Posix(Parts(record.path))
  }

  predicate RecordAccepted(archive: Archive, record: Record, digest: string -> string) {
    && record.Record? && SafeRelativePath(record.path).Some?
    && record.kind in {"file", "symlink"}
    && record.mode.Some? && 0 <= record.mode.value <= 4095
    && var content := Read(archive, StoredName(record));
       content.Some? && content.value.Bytes?
       && |content.value.bytes| == record.size && digest(content.value.bytes) == record.digest
  }

  ghost predicate Accepted(archive: Archive, id: Identity, digest: string -> string, m: Manifest) {
    && Distinct(Names(archive))
    && Read(archive, MANIFEST_NAME) == Some(Json(m))
    && m.schema == 1 && m.kind == KIND && m.identity == id
    && m.files.Some? && m.files.value != []
    && (forall i :: 0 <= i < |m.files.value| ==> RecordAccepted(archive, m.files.value[i], digest))
    && (forall i, j :: 0 <= i < j < |m.files.value| ==> StoredName(m.files.value[i]) != StoredName(m.files.value[j]))
    && (forall name :: name in Names(archive) ==>
          name == MANIFEST_NAME || exists i :: 0 <= i < |m.files.value| && StoredName(m.files.value[i]) == name)
    && m.signTargets.Some?
    && (forall t :: t in m.signTargets.value ==>
      exists i :: 0 <= i < |m.files.value| && StoredName(m.files.value[i]) == t)
  }

  function SetOf(names: seq<string>): set<string> {
    set i | 0 <= i < |names| :: names[i]
  }

  /** Comparing lengths detects duplicates. */
  lemma {:induction false} DistinctByCount(names: seq<string>)
    ensures |SetOf(names)| <= |names|
    ensures |SetOf(names)| == |names| <==> Distinct(names)
  {
    if names != [] {
      var rest, last := names[..|names| - 1], names[|names| - 1];
      DistinctByCount(rest);
      assert SetOf(names) == SetOf(rest) + {last};
      if last in rest {
        var i :| 0 <= i < |rest| && rest[i] == last;
        assert names[i] == names[|names| - 1];
        assert last in SetOf(rest);
        assert SetOf(names) == SetOf(rest);
      } else {
        assert last !in SetOf(rest);
        assert forall i, j :: 0 <= i < j < |rest| ==> rest[i] == names[i] && rest[j] == names[j];
      }
    }
  }

  method ReadArchiveManifest(archive: Archive) returns (r: Result<Manifest, Error>)
    ensures r.Ok? ==> Distinct(Names(archive)) && Read(archive, MANIFEST_NAME) == Some(Json(r.value))
                      && r.value.schema == 1 && r.value.kind == KIND
    ensures r.Err? ==> !(Distinct(Names(archive)) && Read(archive, MANIFEST_NAME).Some?
                         && Read(archive, MANIFEST_NAME).value.Json?
                         && Read(archive, MANIFEST_NAME).value.manifest.schema == 1
                         && Read(archive, MANIFEST_NAME).value.manifest.kind == KIND)
  {
    var names := Names(archive);
    DistinctByCount(names);
    ReadFinds(archive, MANIFEST_NAME);
    if MANIFEST_NAME !in names || |names| != |SetOf(names)| {
      return Err(BadArchive);
    }
    var content := Read(archive, MANIFEST_NAME).value;
    if !content.Json? || content.manifest.schema != 1 || content.manifest.kind != KIND {
      return Err(BadArchive);
    }
    r := Ok(content.manifest);
  }

  /** Checks the records one by one and collects their normalised names. */
  method CheckRecords(archive: Archive, files: seq<Record>, digest: string -> string)
    returns (ok: bool, names: seq<string>)
    ensures ok <==> forall i :: 0 <= i < |files| ==> RecordAccepted(archive, files[i], digest)
    ensures ok ==> |names| == |files| && forall i :: 0 <= i < |files| ==> names[i] == StoredName(files[i])
  {
    names := [];
    for k := 0 to |files|
      invariant |names| == k
      invariant forall i :: 0 <= i < k ==> RecordAccepted(archive, files[i], digest) && names[i] == StoredName(files[i])
    {
      if !RecordAccepted(archive, files[k], digest) {
        return false, names;
      }
      names := names + [StoredName(files[k])];
    }
    ok := true;
  }

  /** Accepts an archive exactly when its manifest and its entries agree, and returns that manifest. */
  method VerifyArchive(archive: Archive, id: Identity, digest: string -> string) returns (r: Result<Manifest, Error>)
    ensures r.Ok? ==> Accepted(archive, id, digest, r.value)
    ensures r.Err? ==> forall m :: !Accepted(archive, id, digest, m)
  {
    var read := ReadArchiveManifest(archive);
    if read.Err? {
      return Err(read.error);
    }
    var m := read.value;
    if m.identity != id {
      return Err(Mismatch);
    }
    if m.files == None || m.files.value == [] {
      return Err(BadFiles);
    }
    var ok, names := CheckRecords(archive, m.files.value, digest);
    if !ok {
      return Err(BadFiles);
    }
    CoverageBySets(archive, m.files.value, names);
    DistinctByCount(names);
    if SetOf(Names(archive)) != {MANIFEST_NAME} + SetOf(names) {
      UnmanifestedIsRefused(archive, id, digest, m, names);
      return Err(Unmanifested);
    }
    if |names| != |SetOf(names)| {
      assert !Distinct(names);
      return Err(Duplicates);
    }
    if m.signTargets == None || !(SetOf(m.signTargets.value) <= SetOf(names)) {
      TargetsBySets(m, names);
      return Err(BadTargets);
    }
    TargetsBySets(m, names);
    r := Ok(m);
  }

  ghost predicate Covered(archive: Archive, files: seq<Record>)
    requires forall i :: 0 <= i < |files| ==> files[i].Record?
  {
    forall name :: name in Names(archive) ==>
      name == MANIFEST_NAME || exists i :: 0 <= i < |files| && StoredName(files[i]) == name
  }

  lemma CoverageBySets(archive: Archive, files: seq<Record>, names: seq<string>)
    requires forall i :: 0 <= i < |files| ==> files[i].Record?
    requires |names| == |files| && forall i :: 0 <= i < |files| ==> names[i] == StoredName(files[i])
    ensures SetOf(Names(archive)) <= {MANIFEST_NAME} + SetOf(names) <==> Covered(archive, files)
  {
    assert forall name :: name in SetOf(Names(archive)) <==> name in Names(archive);
    assert forall name :: name in SetOf(names) <==> exists i :: 0 <= i < |files| && StoredName(files[i]) == name;
  }

  lemma UnmanifestedIsRefused(archive: Archive, id: Identity, digest: string -> string, m: Manifest, names: seq<string>)
    requires m.files.Some? && |names| == |m.files.value|
    requires Read(archive, MANIFEST_NAME) == Some(Json(m))
    requires forall i :: 0 <= i < |m.files.value| ==> m.files.value[i].Record?
    requires forall i :: 0 <= i < |names| ==>
              RecordAccepted(archive, m.files.value[i], digest) && names[i] == StoredName(m.files.value[i])
    requires SetOf(Names(archive)) != {MANIFEST_NAME} + SetOf(names)
    ensures !Covered(archive, m.files.value)
  {
    ReadFinds(archive, MANIFEST_NAME);
    assert {MANIFEST_NAME} + SetOf(names) <= SetOf(Names(archive)) by {
      forall name | name in {MANIFEST_NAME} + SetOf(names) ensures name in SetOf(Names(archive)) {
        ReadFinds(archive, name);
        var k :| 0 <= k < |Names(archive)| && Names(archive)[k] == name;
      }
    }
    CoverageBySets(archive, m.files.value, names);
  }

  lemma TargetsBySets(m: Manifest, names: seq<string>)
    requires m.files.Some? && |names| == |m.files.value|
    requires forall i :: 0 <= i < |names| ==> m.files.value[i].Record? && names[i] == StoredName(m.files.value[i])
    ensures m.signTargets.Some? ==>
              (SetOf(m.signTargets.value) <= SetOf(names) <==>
               forall t :: t in m.signTargets.value ==>
                 exists i :: 0 <= i < |names| && StoredName(m.files.value[i]) == t)
  {
    if m.signTargets.Some? {
      var targets := m.signTargets.value;
      assert forall t :: t in SetOf(targets) <==> t in targets;
      assert forall t :: t in SetOf(names) <==> exists i :: 0 <= i < |names| && StoredName(m.files.value[i]) == t;
    }
  }

  // ---------- acceptance is a bijection ----------

  lemma StoredNameIsNotManifest(record: Record)
    requires record.Record? && SafeRelativePath(record.path).Some?
    ensures StoredName(record) != MANIFEST_NAME
  {
    var parts := Parts(record.path);
    assert Posix(parts)[0] == 'd';
  }

  ghost function StoredNames(files: seq<Record>): seq<string>
    requires forall i :: 0 <= i < |files| ==> files[i].Record?
  {
    seq(|files|, i requires 0 <= i < |files| => StoredName(files[i]))
  }

  /**
   Besides the manifest an accepted archive has exactly one entry for every record and one record for every
   entry, with the recorded size and digest.
   */
  lemma AcceptedIsBijection(archive: Archive, id: Identity, digest: string -> string, m: Manifest)
    requires Accepted(archive, id, digest, m)
    ensures |archive| == |m.files.value| + 1
    ensures forall i :: 0 <= i < |m.files.value| ==>
              var record := m.files.value[i];
              && record.kind in {"file", "symlink"} && record.mode.Some? && 0 <= record.mode.value <= 0xFFF
              && CleanPath(Parts(record.path)) && Parts(record.path)[0] == "desktop" && record.path[0] != '/'
              && exists k :: && 0 <= k < |archive|
                          && archive[k].name == StoredName(record) != MANIFEST_NAME && archive[k].content.Bytes?
                          && |archive[k].content.bytes| == record.size
                          && digest(archive[k].content.bytes) == record.digest
    ensures forall k :: 0 <= k < |archive| && archive[k].name != MANIFEST_NAME ==>
              exists i :: 0 <= i < |m.files.value| && StoredName(m.files.value[i]) == archive[k].name
  {
    var files := m.files.value;
    forall i | 0 <= i < |files|
      ensures files[i].kind in {"file", "symlink"} && files[i].mode.Some? && 0 <= files[i].mode.value <= 0xFFF
      ensures CleanPath(Parts(files[i].path)) && Parts(files[i].path)[0] == "desktop" && files[i].path[0] != '/'
      ensures exists k :: && 0 <= k < |archive|
                          && archive[k].name == StoredName(files[i]) != MANIFEST_NAME && archive[k].content.Bytes?
                          && |archive[k].content.bytes| == files[i].size
                          && digest(archive[k].content.bytes) == files[i].digest
    {
      assert RecordAccepted(archive, files[i], digest);
      SafeIff(files[i].path);
      StoredNameIsNotManifest(files[i]);
      ReadFinds(archive, StoredName(files[i]));
    }
    forall k | 0 <= k < |archive| && archive[k].name != MANIFEST_NAME
      ensures exists i :: 0 <= i < |files| && StoredName(files[i]) == archive[k].name
    {
      assert Names(archive)[k] in Names(archive);
    }
    CountEntries(archive, id, digest, m);
  }

  lemma CountEntries(archive: Archive, id: Identity, digest: string -> string, m: Manifest)
    requires Accepted(archive, id, digest, m)
    ensures |archive| == |m.files.value| + 1
  {
    var files := m.files.value;
    assert forall i :: 0 <= i < |files| ==> RecordAccepted(archive, files[i], digest);
    var names := StoredNames(files);
    DistinctByCount(Names(archive));
    DistinctByCount(names);
    assert SetOf(Names(archive)) == {MANIFEST_NAME} + SetOf(names) by {
      if SetOf(Names(archive)) != {MANIFEST_NAME} + SetOf(names) {
        UnmanifestedIsRefused(archive, id, digest, m, names);
      }
    }
    forall i | 0 <= i < |files| ensures names[i] != MANIFEST_NAME {
      assert RecordAccepted(archive, files[i], digest);
      StoredNameIsNotManifest(files[i]);
    }
    assert MANIFEST_NAME !in SetOf(names);
  }

  // ---------- a built archive is accepted ----------

  lemma SelectedPaths(tree: Tree, platform: string, paths: seq<seq<string>>)
    requires TreeOk(tree) && Selects(tree, platform, paths) && forall p :: p in paths ==> p in tree
    ensures paths != []
    ensures forall p :: p in paths ==> CleanPath(p) && p[0] == "desktop" && SafeRelativePath(Posix(p)) == Some(p)
  {
    assert Required(platform)[0] in Required(platform);
    forall p | p in paths ensures CleanPath(p) && p[0] == "desktop" && SafeRelativePath(Posix(p)) == Some(p) {
      assert p in tree;
      if SIDECAR < p {
        assert p[0] == SIDECAR[0];
      }
      SafeIffUnderDesktop(p);
    }
  }

  lemma BuiltNames(tree: Tree, paths: seq<seq<string>>, m: Manifest, archive: Archive, digest: string -> string)
    requires forall p :: p in paths ==> p in tree && CleanPath(p) && p[0] == "desktop"
    requires forall i, j :: 0 <= i < j < |paths| ==> paths[i] != paths[j]
    requires m.files == Some(FileRecords(tree, paths, digest)) && IsArchiveOf(tree, m, archive)
    ensures Distinct(Names(archive))
    ensures forall i :: 0 <= i < |paths| ==>
              Read(archive, Posix(paths[i])) == Some(Bytes(FileBytes(tree[paths[i]])))
  {
    hide Posix, Parts, SafeRelativePath;
    forall k | 0 < k < |archive| ensures EntryOf(tree, paths[k - 1], archive[k]) {
      BuiltEntry(tree, paths, m, archive, digest, k);
    }
    var names := Names(archive);
    forall i, j | 0 <= i < j < |names| ensures names[i] != names[j] {
      assert EntryOf(tree, paths[j - 1], archive[j]);
      if i > 0 { assert EntryOf(tree, paths[i - 1], archive[i]); }
    }
    forall i | 0 <= i < |paths| ensures Read(archive, Posix(paths[i])) == Some(Bytes(FileBytes(tree[paths[i]]))) {
      assert EntryOf(tree, paths[i], archive[i + 1]);
      ReadAt(archive, i + 1);
    }
  }

  ghost predicate EntryOf(tree: Tree, p: seq<string>, entry: Entry) {
    && p in tree && entry == Entry(Posix(p), Bytes(FileBytes(tree[p])))
    && Parts(entry.name) == p && entry.name != MANIFEST_NAME
  }

  lemma BuiltEntry(tree: Tree, paths: seq<seq<string>>, m: Manifest, archive: Archive, digest: string -> string, k: nat)
    requires forall p :: p in paths ==> p in tree && CleanPath(p) && p[0] == "desktop"
    requires m.files == Some(FileRecords(tree, paths, digest)) && IsArchiveOf(tree, m, archive) && 0 < k < |archive|
    ensures EntryOf(tree, paths[k - 1], archive[k])
  {
    hide Posix, Parts, SafeRelativePath;
    var p, record := paths[k - 1], m.files.value[k - 1];
    assert p in paths;
    PartsOfPosix(p);
    assert record == FileRecord(tree, p, digest);
    assert Readable(tree, record) && archive[(k - 1) + 1].name == record.path;
    SafeIffUnderDesktop(p);
    StoredNameIsNotManifest(record);
  }

  /** Whatever is built from a tree and written from the same tree is accepted for the same identity and stage. */
  lemma BuiltIsAccepted(tree: Tree, paths: seq<seq<string>>, id: Identity, publisher: string, digest: string -> string,
                        m: Manifest, archive: Archive)
    requires TreeOk(tree) && Selects(tree, id.platform, paths)
    requires forall p :: p in paths ==> p != []
    requires BuildManifest(tree, paths, id, publisher, digest) == Ok(m) && IsArchiveOf(tree, m, archive)
    ensures Accepted(archive, id, digest, m)
  {
    hide Required, IdentityOk, SafeRelativePath, Parts, Posix, SignTargets, CleanPart;
    SelectedPaths(tree, id.platform, paths);
    BuiltNames(tree, paths, m, archive, digest);
    var files := m.files.value;
    forall i | 0 <= i < |files|
      ensures RecordAccepted(archive, files[i], digest)
                && StoredName(files[i]) == Posix(paths[i]) == archive[i + 1].name
    {
      assert paths[i] in paths && paths[i] in tree;
      PartsOfPosix(paths[i]);
      assert Readable(tree, files[i]);
    }
    ReadAt(archive, 0);
    forall i, j | 0 <= i < j < |files| ensures StoredName(files[i]) != StoredName(files[j]) {
      assert Names(archive)[i + 1] != Names(archive)[j + 1];
    }
    forall name | name in Names(archive)
      ensures name == MANIFEST_NAME || exists i :: 0 <= i < |files| && StoredName(files[i]) == name
    {
      var k :| 0 <= k < |archive| && Names(archive)[k] == name;
      if k > 0 { assert StoredName(files[k - 1]) == archive[(k - 1) + 1].name; }
    }
    forall t | t in m.signTargets.value ensures exists i :: 0 <= i < |files| && StoredName(files[i]) == t {
      var p :| p in paths && Posix(p) == t;
      var i :| 0 <= i < |paths| && paths[i] == p;
      assert StoredName(files[i]) == t;
    }
  }

  // ---------- extracting ----------

  datatype Restored = RestoredFile(bytes: string, mode: int) | RestoredLink(target: string)

  type Destination = map<seq<string>, Restored>

  predicate SafeLink(target: string) {
    !Absolute(target) && ".." !in Parts(target)
  }

  /** A link is refused exactly when its target starts with a slash or goes up somewhere. */
  lemma SafeLinkIff(target: string)
    ensures SafeLink(target) <==> !("/" <= target) && !exists i, j :: Between(target, "..", i, j)
  {
    PartIff(target, "..");
  }

  /** The operating system gives up after this many links on one path; no result depends on the number. */
  const HOPS: nat := 40

  /** Where a path leads: to a place below the destination, through a link that points outward, or nowhere. */
  datatype Found = At(path: seq<string>) | Outwards | Nowhere

  /** Follows `rest` from the directory `at`, links included. What does not exist is taken literally. */
  function Follow(dest: Destination, at: seq<string>, rest: seq<string>, hops: nat): Found
    decreases hops, |rest|
  {
    if rest == [] then At(at)
    else
      var next := at + [rest[0]];
      if next !in dest then Follow(dest, next, rest[1..], hops)
      else
        match dest[next]
        case RestoredFile(_, _) => if |rest| == 1 then At(next) else Nowhere
        case RestoredLink(target) =>
          if !SafeLink(target) then Outwards
          else if hops == 0 then Nowhere
          else Follow(dest, at, Parts(target) + rest[1..], hops - 1)
  }

  /** Directories are the places that have something below them, and the destination itself. */
  predicate IsDirectory(dest: Destination, p: seq<string>) {
    p == [] || exists q :: q in dest && p < q
  }

  function Reach(dest: Destination, p: seq<string>): Found {
    Follow(dest, [], p, HOPS)
  }

  /** The prefix is a directory, or can be made one because nothing, not even a link, is in its place. */
  predicate Makeable(dest: Destination, prefix: seq<string>) {
    prefix == [] ||
    (var above, here := Reach(dest, prefix[..|prefix| - 1]), Reach(dest, prefix);
     above.At? && here.At?
     && (IsDirectory(dest, here.path) || (here.path == above.path + [prefix[|prefix| - 1]] && here.path !in dest)))
  }

  /** The directory of a path, after making it and those above it. */
  function MakeParents(dest: Destination, p: seq<string>): Result<seq<string>, Error>
    requires p != []
  {
    var parent := p[..|p| - 1];
    if exists i :: 0 <= i <= |parent| && Reach(dest, parent[..i]) == Outwards then Err(Outward)
    else if exists i :: 0 <= i <= |parent| && !Makeable(dest, parent[..i]) then Err(NoDirectory)
    else
      assert parent[..|parent|] == parent && Makeable(dest, parent[..|parent|]);
      if Reach(dest, parent).At? then Ok(Reach(dest, parent).path) else Err(NoDirectory)
  }

  function PlaceLink(dest: Destination, place: seq<string>, target: string): Result<Destination, Error> {
    if !SafeLink(target) then Err(UnsafeLink)
    else if target == "" then Err(EmptyLink)
    else if place in dest || IsDirectory(dest, place) then Err(Exists)
    else Ok(dest[place := RestoredLink(target)])
  }

  /** A file is written where its path leads, through a link if there is one. */
  function PlaceFile(dest: Destination, p: seq<string>, place: seq<string>, file: Restored)
    : Result<Destination, Error>
  {
    match Reach(dest, p)
    case Outwards => Err(Outward)
    case Nowhere => Err(NoDirectory)
    case At(q) =>
      if q == [] || IsDirectory(dest, q) then Err(Exists)
      else if q in dest || q == place || IsDirectory(dest, q[..|q| - 1]) then Ok(dest[q := file])
      else Err(NoDirectory)
  }

  /** Writes one recorded file. */
  function Place(dest: Destination, archive: Archive, record: Record): Result<Destination, Error> {
    if !record.Record? || record.mode == None then Err(BadFiles)
    else if SafeRelativePath(record.path) == None then Err(UnsafePath)
    else
      var p := SafeRelativePath(record.path).value;
      match MakeParents(dest, p)
      case Err(e) => Err(e)
      case Ok(parent) =>
        var content := Read(archive, Posix(p));
        var place := parent + [p[|p| - 1]];
        if content == None || !content.value.Bytes? then Err(BadArchive)
        else if record.kind == "symlink" then PlaceLink(dest, place, content.value.bytes)
        else PlaceFile(dest, p, place, RestoredFile(content.value.bytes, record.mode.value))
  }

  function PlaceAll(dest: Destination, archive: Archive, files: seq<Record>): Result<Destination, Error>
    decreases |files|
  {
    if files == [] then Ok(dest)
    else
      match PlaceAll(dest, archive, files[..|files| - 1])
      case Err(e) => Err(e)
      case Ok(placed) => Place(placed, archive, files[|files| - 1])
  }

  method ExtractArchive(archive: Archive, dest: Destination, files: seq<Record>) returns (r: Result<Destination, Error>)
    ensures r == PlaceAll(dest, archive, files)
  {
    var current := dest;
    for k := 0 to |files|
      invariant PlaceAll(dest, archive, files[..k]) == Ok(current)
    {
      assert files[..k + 1][..k] == files[..k];
      var step := Place(current, archive, files[k]);
      if step.Err? {
        ErrorStays(dest, archive, files, k + 1);
        return Err(step.error);
      }
      current := step.value;
    }
    assert files[..|files|] == files;
    r := Ok(current);
  }

  lemma {:induction false} ErrorStays(dest: Destination, archive: Archive, files: seq<Record>, k: nat)
    requires k <= |files| && PlaceAll(dest, archive, files[..k]).Err?
    ensures PlaceAll(dest, archive, files) == PlaceAll(dest, archive, files[..k])
    decreases |files|
  {
    if k < |files| {
      assert files[..|files| - 1][..k] == files[..k];
      ErrorStays(dest, archive, files[..|files| - 1], k);
    } else {
      assert files[..k] == files;
    }
  }

  /** The part of the tree that a handoff carries: bytes, links, and the modes of regular files. */
  ghost function Carried(tree: Tree, paths: seq<seq<string>>): Destination
    requires forall p :: p in paths ==> p in tree
  {
    map p | p in paths :: Restoring(tree[p])
  }

  function Restoring(node: Node): Restored {
    match node
    case File(bytes, mode) => RestoredFile(bytes, mode)
    case Link(target, _) => RestoredLink(target)
  }

  ghost predicate LinksSafe(tree: Tree, paths: seq<seq<string>>) {
    forall p :: p in paths && p in tree && tree[p].Link? ==> SafeLink(tree[p].target)
  }

  /** An archive whose contents are those of the tree restores the tree, unless a link points outside. */
  lemma {:induction false} ExtractRestores(tree: Tree, paths: seq<seq<string>>, digest: string -> string,
                                           archive: Archive, k: nat)
    requires TreeOk(tree) && k <= |paths|
    requires forall p :: p in paths ==> p in tree && SafeRelativePath(Posix(p)) == Some(p)
    requires forall i, j :: 0 <= i < j < |paths| ==> paths[i] != paths[j]
    requires forall i :: 0 <= i < |paths| ==> Read(archive, Posix(paths[i])) == Some(Bytes(FileBytes(tree[paths[i]])))
    ensures PlaceAll(map[], archive, FileRecords(tree, paths, digest)[..k]) ==
            if LinksSafe(tree, paths[..k]) then Ok(Carried(tree, paths[..k])) else Err(UnsafeLink)
  {
    var files := FileRecords(tree, paths, digest);
    if k == 0 {
      assert Carried(tree, paths[..0]) == map[];
    } else {
      ExtractRestores(tree, paths, digest, archive, k - 1);
      PlaceAllStep(map[], archive, files, k);
      PlaceNext(tree, paths, digest, archive, k);
    }
  }

  lemma PlaceAllStep(dest: Destination, archive: Archive, files: seq<Record>, k: nat)
    requires 0 < k <= |files|
    ensures PlaceAll(dest, archive, files[..k]) ==
            var before := PlaceAll(dest, archive, files[..k - 1]);
            if before.Ok? then Place(before.value, archive, files[k - 1]) else Err(before.error)
  {
    assert files[..k][..k - 1] == files[..k - 1];
  }

  lemma PlaceNext(tree: Tree, paths: seq<seq<string>>, digest: string -> string, archive: Archive, k: nat)
    requires TreeOk(tree) && 0 < k <= |paths|
    requires forall p :: p in paths ==> p in tree && SafeRelativePath(Posix(p)) == Some(p)
    requires forall i, j :: 0 <= i < j < |paths| ==> paths[i] != paths[j]
    requires Read(archive, Posix(paths[k - 1])) == Some(Bytes(FileBytes(tree[paths[k - 1]])))
    ensures Place(Carried(tree, paths[..k - 1]), archive, FileRecord(tree, paths[k - 1], digest)) ==
            if tree[paths[k - 1]].Link? && !SafeLink(tree[paths[k - 1]].target) then Err(UnsafeLink)
            else Ok(Carried(tree, paths[..k]))
  {
    hide Place, SafeRelativePath, Posix, Read, SafeLink;
    var p, dest := paths[k - 1], Carried(tree, paths[..k - 1]);
    assert p in paths;
    forall q | q in dest ensures q != p && !(q < p) && !(p < q) {
      var i :| 0 <= i < k - 1 && paths[i] == q;
      assert q in paths && q in tree;
    }
    PlaceApart(dest, archive, tree, p, digest);
    assert paths[..k] == paths[..k - 1] + [p];
    assert Carried(tree, paths[..k]) == dest[p := Restoring(tree[p])];
  }

  /** A path that meets nothing on its way leads to itself. */
  lemma {:induction false} FollowPlain(dest: Destination, at: seq<string>, rest: seq<string>, hops: nat)
    requires forall q :: q in dest ==> !(at < q <= at + rest)
    ensures Follow(dest, at, rest, hops) == At(at + rest)
    decreases |rest|
  {
    if rest == [] {
      assert at + rest == at;
    } else {
      var next := at + [rest[0]];
      assert next + rest[1..] == at + rest;
      assert at < next <= at + rest;
      forall q | q in dest ensures !(next < q <= next + rest[1..]) {
        if next < q { assert at < q; }
      }
      FollowPlain(dest, next, rest[1..], hops);
    }
  }

  lemma ReachPlain(dest: Destination, p: seq<string>, i: nat)
    requires i <= |p| && forall q :: q in dest ==> !(q <= p)
    ensures Reach(dest, p[..i]) == At(p[..i])
  {
    forall q | q in dest ensures !([] < q <= [] + p[..i]) {
      assert q <= p[..i] ==> q <= p;
    }
    FollowPlain(dest, [], p[..i], HOPS);
    assert [] + p[..i] == p[..i];
  }

  /** Beside everything that is there, the parents can be made and are taken literally. */
  lemma ParentsApart(dest: Destination, p: seq<string>)
    requires p != [] && forall q :: q in dest ==> !(q <= p)
    ensures MakeParents(dest, p) == Ok(p[..|p| - 1])
  {
    hide Reach, IsDirectory;
    var parent := p[..|p| - 1];
    forall i | 0 <= i <= |parent| ensures Reach(dest, parent[..i]) == At(parent[..i]) && Makeable(dest, parent[..i]) {
      assert parent[..i] == p[..i];
      ReachPlain(dest, p, i);
      if i > 0 {
        assert parent[..i][..i - 1] == p[..i - 1];
        ReachPlain(dest, p, i - 1);
        assert p[..i] == p[..i - 1] + [p[i - 1]];
        assert p[..i] <= p;
      }
    }
    assert parent[..|parent|] == parent;
  }

  lemma PlaceApart(dest: Destination, archive: Archive, tree: Tree, p: seq<string>, digest: string -> string)
    requires p in tree && p != [] && SafeRelativePath(Posix(p)) == Some(p) && (tree[p].Link? ==> tree[p].target != "")
    requires Read(archive, Posix(p)) == Some(Bytes(FileBytes(tree[p])))
    requires forall q :: q in dest ==> q != p && !(q < p) && !(p < q)
    ensures Place(dest, archive, FileRecord(tree, p, digest)) ==
            if tree[p].Link? && !SafeLink(tree[p].target) then Err(UnsafeLink) else Ok(dest[p := Restoring(tree[p])])
  {
    hide Reach, MakeParents, SafeRelativePath, SafeLink, Posix, Read;
    assert forall q :: q in dest ==> !(q <= p);
    ParentsApart(dest, p);
    ReachPlain(dest, p, |p|);
    assert p[..|p|] == p && p == p[..|p| - 1] + [p[|p| - 1]];
  }

  // ---------- extraction stays below the destination ----------

  /** Every path of the destination consists of proper names, so it denotes a place below the destination. */
  ghost predicate CleanKeys(dest: Destination) {
    forall p :: p in dest ==> CleanPath(p)
  }

  ghost predicate CleanParts(p: seq<string>) {
    forall part :: part in p ==> CleanPart(part)
  }

  lemma SafeLinkIsClean(target: string)
    requires SafeLink(target)
    ensures CleanParts(Parts(target))
  {
    PartsAreParts(target, "");
  }

  lemma CleanConcat(a: seq<string>, b: seq<string>)
    requires CleanParts(a) && CleanParts(b)
    ensures CleanParts(a + b)
  {
  }

  /** Following proper names through safe links leads to a path of proper names. */
  lemma {:induction false} FollowStaysClean(dest: Destination, at: seq<string>, rest: seq<string>, hops: nat)
    requires NoOutwardLink(dest) && CleanParts(at) && CleanParts(rest)
    ensures Follow(dest, at, rest, hops).At? ==> CleanParts(Follow(dest, at, rest, hops).path)
    decreases hops, |rest|
  {
    hide SafeLink, CleanPart;
    if rest != [] {
      var next := at + [rest[0]];
      assert CleanPart(rest[0]);
      CleanConcat(at, [rest[0]]);
      assert CleanParts(rest[1..]);
      if next !in dest {
        FollowStaysClean(dest, next, rest[1..], hops);
      } else if dest[next].RestoredLink? && hops > 0 {
        SafeLinkIsClean(dest[next].target);
        CleanConcat(Parts(dest[next].target), rest[1..]);
        FollowStaysClean(dest, at, Parts(dest[next].target) + rest[1..], hops - 1);
      }
    }
  }

  lemma ParentsAreClean(dest: Destination, p: seq<string>)
    requires NoOutwardLink(dest) && CleanPath(p)
    ensures MakeParents(dest, p).Ok? ==> CleanPath(MakeParents(dest, p).value + [p[|p| - 1]])
  {
    hide Follow, Makeable, CleanPart;
    var parent, name := p[..|p| - 1], p[|p| - 1];
    assert CleanParts(parent) && CleanParts([]) && CleanPart(name);
    FollowStaysClean(dest, [], parent, HOPS);
    if MakeParents(dest, p).Ok? { CleanConcat(MakeParents(dest, p).value, [name]); }
  }

  lemma FileIsClean(dest: Destination, p: seq<string>, place: seq<string>, file: Restored)
    requires NoOutwardLink(dest) && CleanKeys(dest) && CleanPath(p)
    ensures PlaceFile(dest, p, place, file).Ok? ==> CleanKeys(PlaceFile(dest, p, place, file).value)
  {
    hide Follow, IsDirectory, CleanPart;
    assert CleanParts([]) && CleanParts(p);
    FollowStaysClean(dest, [], p, HOPS);
  }

  lemma PlaceStaysClean(dest: Destination, archive: Archive, record: Record)
    requires NoOutwardLink(dest) && CleanKeys(dest)
    ensures Place(dest, archive, record).Ok? ==> CleanKeys(Place(dest, archive, record).value)
  {
    hide MakeParents, PlaceFile, SafeLink, IsDirectory, Read, Posix, Parts, SafeRelativePath, CleanPath, NoOutwardLink;
    if record.Record? {
      SafeIff(record.path);
      if SafeRelativePath(record.path).Some? {
        var p := SafeRelativePath(record.path).value;
        NotEmpty(p);
        ParentsAreClean(dest, p);
        forall place, bytes, mode
          ensures PlaceFile(dest, p, place, RestoredFile(bytes, mode)).Ok? ==>
                    CleanKeys(PlaceFile(dest, p, place, RestoredFile(bytes, mode)).value)
        {
          FileIsClean(dest, p, place, RestoredFile(bytes, mode));
        }
      }
    }
  }

  lemma NotEmpty(p: seq<string>)
    requires CleanPath(p)
    ensures p != []
  {
  }

  ghost predicate NoOutwardLink(dest: Destination) {
    forall q :: q in dest && dest[q].RestoredLink? ==> SafeLink(dest[q].target)
  }

  /** Safe links, however they are chained, never lead outward. */
  lemma {:induction false} FollowStaysInside(dest: Destination, at: seq<string>, rest: seq<string>, hops: nat)
    requires NoOutwardLink(dest)
    ensures Follow(dest, at, rest, hops) != Outwards
    decreases hops, |rest|
  {
    hide SafeLink;
    if rest != [] {
      var next := at + [rest[0]];
      if next !in dest {
        FollowStaysInside(dest, next, rest[1..], hops);
      } else if dest[next].RestoredLink? && hops > 0 {
        FollowStaysInside(dest, at, Parts(dest[next].target) + rest[1..], hops - 1);
      }
    }
  }

  lemma PlaceStaysInside(dest: Destination, archive: Archive, record: Record)
    requires NoOutwardLink(dest)
    ensures Place(dest, archive, record) != Err(Outward)
    ensures Place(dest, archive, record).Ok? ==> NoOutwardLink(Place(dest, archive, record).value)
  {
    hide MakeParents, PlaceFile, SafeLink, IsDirectory, Read, Posix, Parts;
    if record.Record? && SafeRelativePath(record.path).Some? {
      var p := SafeRelativePath(record.path).value;
      ParentsStayInside(dest, p);
      forall place, bytes, mode
        ensures PlaceFile(dest, p, place, RestoredFile(bytes, mode)) != Err(Outward)
        ensures PlaceFile(dest, p, place, RestoredFile(bytes, mode)).Ok? ==>
                  NoOutwardLink(PlaceFile(dest, p, place, RestoredFile(bytes, mode)).value)
      {
        FileStaysInside(dest, p, place, RestoredFile(bytes, mode));
      }
    }
  }

  lemma ParentsStayInside(dest: Destination, p: seq<string>)
    requires NoOutwardLink(dest) && p != []
    ensures MakeParents(dest, p) != Err(Outward)
  {
    hide Makeable;
    var parent := p[..|p| - 1];
    forall i | 0 <= i <= |parent| ensures Reach(dest, parent[..i]) != Outwards {
      FollowStaysInside(dest, [], parent[..i], HOPS);
    }
  }

  lemma FileStaysInside(dest: Destination, p: seq<string>, place: seq<string>, file: Restored)
    requires NoOutwardLink(dest) && file.RestoredFile?
    ensures PlaceFile(dest, p, place, file) != Err(Outward)
    ensures PlaceFile(dest, p, place, file).Ok? ==> NoOutwardLink(PlaceFile(dest, p, place, file).value)
  {
    hide Follow, IsDirectory, SafeLink;
    FollowStaysInside(dest, [], p, HOPS);
  }

  // ---------- what extracting may replace ----------

  /** Everything stays: a link as it is, and a file at least as a file. */
  ghost predicate Persists(before: Destination, after: Destination) {
    forall q :: q in before ==>
      q in after && if before[q].RestoredLink? then after[q] == before[q] else after[q].RestoredFile?
  }

  /** A path never ends at a link; the link is followed. */
  lemma {:induction false} FollowPassesLinks(dest: Destination, at: seq<string>, rest: seq<string>, hops: nat)
    requires at == [] || at !in dest || dest[at].RestoredFile?
    ensures var r := Follow(dest, at, rest, hops);
            r.At? ==> r.path == [] || r.path !in dest || dest[r.path].RestoredFile?
    decreases hops, |rest|
  {
    hide SafeLink, Parts;
    if rest != [] {
      var next := at + [rest[0]];
      if next !in dest {
        FollowPassesLinks(dest, next, rest[1..], hops);
      } else if dest[next].RestoredLink? && hops > 0 {
        FollowPassesLinks(dest, at, Parts(dest[next].target) + rest[1..], hops - 1);
      }
    }
  }

  lemma PlacePersists(dest: Destination, archive: Archive, record: Record)
    ensures Place(dest, archive, record).Ok? ==> Persists(dest, Place(dest, archive, record).value)
  {
    hide MakeParents, Follow, SafeLink, IsDirectory, Read, Posix, SafeRelativePath;
    if record.Record? && SafeRelativePath(record.path).Some? {
      FollowPassesLinks(dest, [], SafeRelativePath(record.path).value, HOPS);
    }
  }

  /** A record puts one thing in one place: a link for type "symlink", and for any other type a file with its mode. */
  lemma PlaceAddsOne(dest: Destination, archive: Archive, record: Record) returns (q: seq<string>)
    requires Place(dest, archive, record).Ok?
    ensures record.Record? && record.mode.Some?
    ensures var content := Read(archive, Posix(Parts(record.path)));
            && content.Some? && content.value.Bytes?
            && (var what := if record.kind == "symlink" then RestoredLink(content.value.bytes)
                            else RestoredFile(content.value.bytes, record.mode.value);
                Place(dest, archive, record).value == dest[q := what])
  {
    hide MakeParents, Follow, SafeLink, IsDirectory, Read, Posix;
    var p := SafeRelativePath(record.path).value;
    q := if record.kind == "symlink" then MakeParents(dest, p).value + [p[|p| - 1]] else Reach(dest, p).path;
  }

  lemma PersistsOn(a: Destination, b: Destination, c: Destination)
    requires Persists(a, b) && Persists(b, c)
    ensures Persists(a, c)
  {
  }

  /** Whatever is extracted, nothing disappears, no link changes and no link takes the place of a file. */
  lemma {:induction false} ExtractionPersists(dest: Destination, archive: Archive, files: seq<Record>)
    ensures PlaceAll(dest, archive, files).Ok? ==> Persists(dest, PlaceAll(dest, archive, files).value)
    decreases |files|
  {
    hide Place;
    if files != [] {
      ExtractionPersists(dest, archive, files[..|files| - 1]);
      var before := PlaceAll(dest, archive, files[..|files| - 1]);
      if before.Ok? {
        PlacePersists(before.value, archive, files[|files| - 1]);
        if Place(before.value, archive, files[|files| - 1]).Ok? {
          PersistsOn(dest, before.value, Place(before.value, archive, files[|files| - 1]).value);
        }
      }
    }
  }

  // ---------- what is extracted is a tree ----------

  /** A tree of files and links: nothing is below a file or a link, and every link names something. */
  ghost predicate Treelike(dest: Destination) {
    && (forall p :: p in dest ==> p != [] && (dest[p].RestoredLink? ==> dest[p].target != ""))
    && (forall p, q :: p in dest && q in dest ==> !(p < q))
  }

  /** No file and no link is in the way of something below this place. */
  ghost predicate Clear(dest: Destination, p: seq<string>) {
    forall q :: q in dest ==> !(q <= p)
  }

  lemma DirectoryIsClear(dest: Destination, p: seq<string>)
    requires Treelike(dest) && IsDirectory(dest, p)
    ensures Clear(dest, p)
  {
    if p != [] {
      var below :| below in dest && p < below;
      forall q | q in dest ensures !(q <= p) { assert q <= p ==> q < below; }
    }
  }

  lemma ClearBelow(dest: Destination, p: seq<string>, name: string)
    requires Clear(dest, p) && p + [name] !in dest
    ensures Clear(dest, p + [name])
  {
    forall q | q in dest ensures !(q <= p + [name]) {
      assert q <= p + [name] ==> q == p + [name] || q <= p;
    }
  }

  /** A directory that exists or can be made has nothing in its way. */
  lemma {:induction false} MadeIsClear(dest: Destination, parent: seq<string>, i: nat)
    requires Treelike(dest) && i <= |parent| && forall k :: 0 <= k <= i ==> Makeable(dest, parent[..k])
    ensures Reach(dest, parent[..i]).At? ==> Clear(dest, Reach(dest, parent[..i]).path)
  {
    hide Follow, IsDirectory, Clear;
    if i == 0 {
      ReachNothing(dest);
      assert parent[..0] == [];
      DirectoryIsClear(dest, []);
    } else {
      MadeIsClear(dest, parent, i - 1);
      var prefix := parent[..i];
      assert prefix[..i - 1] == parent[..i - 1] && Makeable(dest, prefix);
      var here := Reach(dest, prefix).path;
      if IsDirectory(dest, here) {
        DirectoryIsClear(dest, here);
      } else {
        ClearBelow(dest, Reach(dest, prefix[..i - 1]).path, prefix[i - 1]);
      }
    }
  }

  lemma ReachNothing(dest: Destination)
    ensures Reach(dest, []) == At([]) && IsDirectory(dest, [])
  {
  }

  lemma ParentIsClear(dest: Destination, p: seq<string>)
    requires Treelike(dest) && p != []
    ensures MakeParents(dest, p).Ok? ==> Clear(dest, MakeParents(dest, p).value)
  {
    hide Follow, Makeable, Clear;
    var parent := p[..|p| - 1];
    if MakeParents(dest, p).Ok? {
      MadeIsClear(dest, parent, |parent|);
      assert parent[..|parent|] == parent;
    }
  }

  /** Putting something where nothing is in the way and nothing below keeps a tree. */
  lemma PutKeepsTree(dest: Destination, place: seq<string>, what: Restored)
    requires Treelike(dest) && place != [] && !IsDirectory(dest, place)
    requires place in dest || Clear(dest, place[..|place| - 1])
    requires what.RestoredLink? ==> what.target != ""
    ensures Treelike(dest[place := what])
  {
    var after, parent := dest[place := what], place[..|place| - 1];
    forall p, q | p in after && q in after ensures !(p < q) {
      if q == place && p != place { assert p < place ==> p <= parent; }
    }
  }

  lemma PlaceLinkKeepsTree(dest: Destination, parent: seq<string>, name: string, target: string)
    requires Treelike(dest) && Clear(dest, parent)
    ensures var r := PlaceLink(dest, parent + [name], target); r.Ok? ==> Treelike(r.value)
  {
    hide SafeLink, IsDirectory, Clear;
    var place := parent + [name];
    assert place[..|place| - 1] == parent;
    if PlaceLink(dest, place, target).Ok? { PutKeepsTree(dest, place, RestoredLink(target)); }
  }

  lemma PlaceFileKeepsTree(dest: Destination, p: seq<string>, parent: seq<string>, name: string, file: Restored)
    requires Treelike(dest) && Clear(dest, parent) && file.RestoredFile?
    ensures var r := PlaceFile(dest, p, parent + [name], file); r.Ok? ==> Treelike(r.value)
  {
    hide Follow, IsDirectory, Clear, Treelike;
    var place := parent + [name];
    assert place[..|place| - 1] == parent;
    if PlaceFile(dest, p, place, file).Ok? {
      var q := Reach(dest, p).path;
      if q !in dest && q != place { DirectoryIsClear(dest, q[..|q| - 1]); }
      PutKeepsTree(dest, q, file);
    }
  }

  lemma PlaceKeepsTree(dest: Destination, archive: Archive, record: Record)
    requires Treelike(dest)
    ensures Place(dest, archive, record).Ok? ==> Treelike(Place(dest, archive, record).value)
  {
    hide MakeParents, PlaceFile, PlaceLink, Read, Posix, SafeRelativePath, Treelike, Clear;
    if Place(dest, archive, record).Ok? {
      SafeIff(record.path);
      var p := SafeRelativePath(record.path).value;
      ParentIsClear(dest, p);
      var parent, bytes := MakeParents(dest, p).value, Read(archive, Posix(p)).value.bytes;
      PlaceLinkKeepsTree(dest, parent, p[|p| - 1], bytes);
      PlaceFileKeepsTree(dest, p, parent, p[|p| - 1], RestoredFile(bytes, record.mode.value));
    }
  }

  /** Extracting into a tree gives a tree, whatever the archive holds. */
  lemma {:induction false} ExtractionKeepsTree(dest: Destination, archive: Archive, files: seq<Record>)
    requires Treelike(dest)
    ensures PlaceAll(dest, archive, files).Ok? ==> Treelike(PlaceAll(dest, archive, files).value)
    decreases |files|
  {
    hide Place, Treelike;
    if files != [] {
      ExtractionKeepsTree(dest, archive, files[..|files| - 1]);
      var before := PlaceAll(dest, archive, files[..|files| - 1]);
      if before.Ok? { PlaceKeepsTree(before.value, archive, files[|files| - 1]); }
    }
  }

  /**
   Whatever archive is extracted into a destination of proper names without outward links, an accepted one or not:
   every file and link ends up under a path of proper names, hence below the destination, also when files are written
   through links placed before.
   */
  lemma {:induction false} ExtractionStaysInside(dest: Destination, archive: Archive, files: seq<Record>)
    requires NoOutwardLink(dest)
    ensures PlaceAll(dest, archive, files) != Err(Outward)
    ensures PlaceAll(dest, archive, files).Ok? ==>
              && NoOutwardLink(PlaceAll(dest, archive, files).value)
              && (CleanKeys(dest) ==> CleanKeys(PlaceAll(dest, archive, files).value))
    decreases |files|
  {
    hide Place, NoOutwardLink, CleanKeys;
    if files != [] {
      ExtractionStaysInside(dest, archive, files[..|files| - 1]);
      var before := PlaceAll(dest, archive, files[..|files| - 1]);
      if before.Ok? {
        PlaceStaysInside(before.value, archive, files[|files| - 1]);
        if CleanKeys(before.value) { PlaceStaysClean(before.value, archive, files[|files| - 1]); }
      }
    }
  }

  /** The condition is needed: through an outward link that is already there, a file below it goes outward. */
  lemma OutwardLinkLeadsOut(archive: Archive, target: string, p: seq<string>, record: Record)
    requires !SafeLink(target) && |p| >= 2 && record.Record? && record.mode.Some?
    requires SafeRelativePath(record.path) == Some(p)
    ensures Place(map[[p[0]] := RestoredLink(target)], archive, record) == Err(Outward)
  {
    hide SafeRelativePath, SafeLink, Read, Posix;
    var dest: Destination := map[[p[0]] := RestoredLink(target)];
    var parent := p[..|p| - 1];
    assert [] + [parent[..1][0]] == [p[0]];
    assert Reach(dest, parent[..1]) == Outwards;
  }

  /**
   The round trip: build, write, verify and extract into an empty tree restores every carried path, byte, link
   and regular-file mode, exactly when every link target is relative and free of "..".
   */
  lemma RoundTrip(tree: Tree, paths: seq<seq<string>>, id: Identity, publisher: string, digest: string -> string,
                  m: Manifest, archive: Archive)
    requires TreeOk(tree) && Selects(tree, id.platform, paths)
    requires forall p :: p in paths ==> p != []
    requires BuildManifest(tree, paths, id, publisher, digest) == Ok(m) && IsArchiveOf(tree, m, archive)
    ensures Accepted(archive, id, digest, m)
    ensures PlaceAll(map[], archive, m.files.value) ==
            if LinksSafe(tree, paths) then Ok(Carried(tree, paths)) else Err(UnsafeLink)
  {
    hide IdentityOk, Required, Posix, Parts, SafeRelativePath, Accepted, Carried, LinksSafe, PlaceAll;
    BuiltIsAccepted(tree, paths, id, publisher, digest, m, archive);
    SelectedPaths(tree, id.platform, paths);
    BuiltNames(tree, paths, m, archive, digest);
    ExtractRestores(tree, paths, digest, archive, |paths|);
    assert m.files.value[..|paths|] == m.files.value && paths[..|paths|] == paths;
  }

  /**
   With a collision-free digest the manifest alone fixes what is restored: any accepted archive carrying the
   manifest of a tree, whoever wrote it, extracts to that tree.
   */
  lemma AcceptedManifestFixesContents(tree: Tree, paths: seq<seq<string>>, id: Identity, publisher: string,
                                      digest: string -> string, m: Manifest, archive: Archive)
    requires TreeOk(tree) && Selects(tree, id.platform, paths)
    requires forall p :: p in paths ==> p != []
    requires BuildManifest(tree, paths, id, publisher, digest) == Ok(m)
    requires forall a, b :: digest(a) == digest(b) ==> a == b
    requires Accepted(archive, id, digest, m)
    ensures PlaceAll(map[], archive, m.files.value) ==
            if LinksSafe(tree, paths) then Ok(Carried(tree, paths)) else Err(UnsafeLink)
  {
    SelectedPaths(tree, id.platform, paths);
    var files := m.files.value;
    forall i | 0 <= i < |paths|
      ensures Read(archive, Posix(paths[i])) == Some(Bytes(FileBytes(tree[paths[i]])))
    {
      assert paths[i] in paths;
      PartsOfPosix(paths[i]);
      assert files[i] == FileRecord(tree, paths[i], digest);
      assert RecordAccepted(archive, files[i], digest);
    }
    ExtractRestores(tree, paths, digest, archive, |paths|);
    assert files[..|paths|] == files && paths[..|paths|] == paths;
  }
}
