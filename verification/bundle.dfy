// The recovery bundle: an encrypted archive of named files and an integrity manifest.
// What is sealed opens to exactly the same files, and nothing else opens at all.
module Bundle {
  import opened Wrappers

  type Data = seq<Byte>

  const MANIFEST := ".guardian-bundle-manifest.json"
  const MAX_MANIFEST: nat := 16777216
  const MAX_FILES: nat := 100000
  const MAX_FILE: nat := 34359738368
  const MAX_TOTAL: nat := 68719476736

  // ----- Names -----

  predicate Slashless(s: string) { '/' !in s }

  function Split(s: string): (parts: seq<string>)
    ensures parts != []
  {
    if s == "" then [""]
    else
      var rest := Split(s[1..]);
      if s[0] == '/' then [""] + rest else [[s[0]] + rest[0]] + rest[1..]
  }

  function Join(parts: seq<string>): string
    requires parts != []
  {
    if |parts| == 1 then parts[0] else parts[0] + "/" + Join(parts[1..])
  }

  // One component on top of a cleaned path.
  function Step(path: seq<string>, part: string): seq<string> {
    if part == "" || part == "." then path
    else if part == ".." && path != [] && path[|path| - 1] != ".." then path[..|path| - 1]
    else path + [part]
  }

  function Walk(path: seq<string>, parts: seq<string>): seq<string> {
    if parts == [] then path else Step(Walk(path, parts[..|parts| - 1]), parts[|parts| - 1])
  }

  // path.Clean of a relative name.
  function Clean(name: string): string {
    var parts := Walk([], Split(name));
    if parts == [] then "." else Join(parts)
  }

  predicate HasPrefix(s: string, prefix: string) { |prefix| <= |s| && s[..|prefix|] == prefix }

  // validName, test by test.
  predicate ValidName(name: string) {
    && name != "" && name != "." && name != MANIFEST && '\\' !in name && !HasPrefix(name, "/")
    && Clean(name) == name && name != ".." && !HasPrefix(name, "../")
  }

  predicate Plain(part: string) { part != "" && part != "." && part != ".." && Slashless(part) }

  lemma {:induction false} SplitSlashless(s: string)
    ensures forall p :: p in Split(s) ==> Slashless(p)
  {
    if s != "" {
      SplitSlashless(s[1..]);
      var rest := Split(s[1..]);
      assert rest[0] in rest;
    }
  }

  lemma {:induction false} SplitOne(s: string)
    requires Slashless(s)
    ensures Split(s) == [s]
  {
    if s != "" {
      assert s[0] in s;
      SplitOne(s[1..]);
      assert s == [s[0]] + s[1..];
    }
  }

  lemma {:induction false} SplitMore(a: string, b: string)
    requires Slashless(a)
    ensures Split(a + "/" + b) == [a] + Split(b)
  {
    var s := a + "/" + b;
    if a == "" {
      assert s[1..] == b;
    } else {
      assert s[1..] == a[1..] + "/" + b;
      SplitMore(a[1..], b);
      assert a == [a[0]] + a[1..];
    }
  }

  lemma {:induction false} SplitJoin(parts: seq<string>)
    requires parts != [] && forall p :: p in parts ==> Slashless(p)
    ensures Split(Join(parts)) == parts
  {
    if |parts| == 1 {
      SplitOne(parts[0]);
    } else {
      SplitJoin(parts[1..]);
      SplitMore(parts[0], Join(parts[1..]));
      assert parts == [parts[0]] + parts[1..];
    }
  }

  // A cleaned path has no empty or dot component, and goes up only at its beginning.
  ghost predicate Tidy(path: seq<string>) {
    && (forall p :: p in path ==> p != "" && p != "." && Slashless(p))
    && forall i, j :: 0 <= i < j < |path| && path[j] == ".." ==> path[i] == ".."
  }

  lemma {:induction false} WalkTidy(path: seq<string>, parts: seq<string>)
    requires Tidy(path) && forall p :: p in parts ==> Slashless(p)
    ensures Tidy(Walk(path, parts))
    decreases |parts|
  {
    if parts != [] {
      WalkTidy(path, parts[..|parts| - 1]);
      assert parts[|parts| - 1] in parts;
    }
  }

  // A valid name consists of plain components only: it cannot climb out of a directory.
  lemma ValidIsPlain(name: string)
    requires ValidName(name)
    ensures forall p :: p in Split(name) ==> Plain(p)
  {
    var parts := Split(name);
    SplitSlashless(name);
    var path := Walk([], parts);
    WalkTidy([], parts);
    SplitJoin(path);
    assert parts == path;
    if path[0] == ".." { UpIsPrefix(path); }
    NeverUp(path);
  }

  lemma NeverUp(path: seq<string>)
    requires Tidy(path) && path != [] && path[0] != ".."
    ensures forall p :: p in path ==> p != ".."
  {
  }

  lemma UpIsPrefix(path: seq<string>)
    requires path != [] && path[0] == ".."
    ensures Join(path) == ".." || HasPrefix(Join(path), "../")
  {
    if |path| > 1 {
      assert Join(path) == (".." + "/") + Join(path[1..]);
    }
  }

  // Every target path stays strictly under the destination.
  lemma {:induction false} PlainStaysUnder(destination: seq<string>, parts: seq<string>)
    requires forall p :: p in parts ==> Plain(p)
    ensures Walk(destination, parts) == destination + parts
    decreases |parts|
  {
    if parts != [] {
      assert parts[|parts| - 1] in parts;
      PlainStaysUnder(destination, parts[..|parts| - 1]);
      assert destination + parts[..|parts| - 1] + [parts[|parts| - 1]] == destination + parts;
    }
  }

  lemma ValidStaysUnder(destination: seq<string>, name: string)
    requires ValidName(name)
    ensures Walk(destination, Split(name)) == destination + Split(name)
  {
    ValidIsPlain(name);
    PlainStaysUnder(destination, Split(name));
  }

  // ----- Archives -----

  // The manifest of an archive lists every file's hash; SHA-256 is taken as injective, so
  // it lists the contents. `size` is the length of its text, and a text that does not
  // decode has no manifest.
  datatype Manifest = Manifest(version: int, files: map<string, Data>)
  datatype Entry = File(name: string, data: Data) | ManifestEntry(manifest: Option<Manifest>, size: nat) | Special(name: string)

  datatype Limits = Limits(maxBytes: nat, maxFiles: nat)

  function FilesOf(entries: seq<Entry>): map<string, Data> {
    if entries == [] then map[]
    else
      var last := entries[|entries| - 1];
      if last.File? then FilesOf(entries[..|entries| - 1])[last.name := last.data] else FilesOf(entries[..|entries| - 1])
  }

  function BytesOf(entries: seq<Entry>): nat {
    if entries == [] then 0
    else BytesOf(entries[..|entries| - 1]) + if entries[|entries| - 1].File? then |entries[|entries| - 1].data| else 0
  }

  // Neither name is a directory on the way to the other.
  predicate Apart(a: string, b: string) { !HasPrefix(a, b + "/") && !HasPrefix(b, a + "/") }

  // The files an archive may start with: valid, distinct, creatable side by side.
  ghost predicate ListedFiles(files: seq<Entry>) {
    && (forall i :: 0 <= i < |files| ==> files[i].File? && ValidName(files[i].name) && |files[i].data| <= MAX_FILE)
    && forall i, j :: 0 <= i < j < |files| ==> files[i].name != files[j].name && Apart(files[i].name, files[j].name)
  }

  // The whole archive: files, then the one manifest that describes exactly them.
  ghost predicate Openable(entries: seq<Entry>, limits: Limits) {
    && entries != []
    && var files, last := entries[..|entries| - 1], entries[|entries| - 1];
    && ListedFiles(files) && files != [] && |files| <= limits.maxFiles && BytesOf(files) <= limits.maxBytes
    && last.ManifestEntry? && last.manifest == Some(Manifest(1, FilesOf(files))) && last.size <= MAX_MANIFEST
  }

  lemma ListedFront(files: seq<Entry>)
    requires ListedFiles(files) && files != []
    ensures ListedFiles(files[..|files| - 1]) && files[|files| - 1].File?
    ensures forall i :: 0 <= i < |files| - 1 ==> files[i].File? && files[i].name != files[|files| - 1].name
  {
  }

  lemma {:induction false} FilesListed(files: seq<Entry>)
    requires ListedFiles(files)
    ensures forall i :: 0 <= i < |files| ==> Holds(FilesOf(files), files[i])
    ensures forall n :: n in FilesOf(files) ==> exists i :: 0 <= i < |files| && files[i].name == n
    ensures |FilesOf(files)| == |files|
  {
    hide ValidName, Apart, ListedFiles;
    if files != [] {
      var front, last := files[..|files| - 1], files[|files| - 1];
      ListedFront(files);
      FilesListed(front);
      NewName(front, last, files);
      OneMoreFile(FilesOf(front), last);
      forall i | 0 <= i < |files| ensures Holds(FilesOf(files), files[i]) {
        if i < |front| { assert front[i] == files[i] && files[i].name != last.name; }
      }
      forall n | n in FilesOf(files) ensures exists i :: 0 <= i < |files| && files[i].name == n {
        if n == last.name {
          assert files[|front|].name == n;
        } else {
          var i :| 0 <= i < |front| && front[i].name == n;
          assert files[i].name == n;
        }
      }
    }
  }

  lemma AppendListed(front: seq<Entry>, e: Entry)
    requires ListedFiles(front) && e.File? && ValidName(e.name) && |e.data| <= MAX_FILE
    requires forall i :: 0 <= i < |front| ==> front[i].name != e.name && Apart(front[i].name, e.name)
    ensures ListedFiles(front + [e])
    ensures FilesOf(front + [e]) == FilesOf(front)[e.name := e.data] && BytesOf(front + [e]) == BytesOf(front) + |e.data|
  {
    hide ValidName, Apart;
    var files := front + [e];
    assert files[..|front|] == front;
    forall i | 0 <= i < |files| ensures files[i].File? && ValidName(files[i].name) && |files[i].data| <= MAX_FILE {
      if i < |front| { assert files[i] == front[i]; }
    }
  }

  ghost predicate Holds(files: map<string, Data>, e: Entry) {
    e.File? && e.name in files && files[e.name] == e.data
  }

  lemma NewName(front: seq<Entry>, last: Entry, files: seq<Entry>)
    requires files != [] && front == files[..|files| - 1] && last == files[|files| - 1] && last.File?
    requires forall i :: 0 <= i < |files| - 1 ==> files[i].File? && files[i].name != last.name
    requires forall n :: n in FilesOf(front) ==> exists i :: 0 <= i < |front| && front[i].name == n
    ensures last.name !in FilesOf(front)
  {
  }

  lemma OneMoreFile(m: map<string, Data>, e: Entry)
    requires e.File? && e.name !in m
    ensures |m[e.name := e.data]| == |m| + 1
    ensures forall f: Entry :: Holds(m, f) ==> Holds(m[e.name := e.data], f)
  {
    assert m[e.name := e.data].Keys == m.Keys + {e.name};
  }

  // ----- Sealing -----

  // A directory tree: no file stands where another one needs a directory.
  ghost predicate Tree(tree: map<string, Data>) {
    forall a, b :: a in tree && b in tree && a != b ==> Apart(a, b)
  }

  function BytesIn(tree: map<string, Data>, order: seq<string>): nat {
    if order == [] then 0
    else BytesIn(tree, order[..|order| - 1]) + if order[|order| - 1] in tree then |tree[order[|order| - 1]]| else 0
  }

  ghost predicate Sealable(tree: map<string, Data>, order: seq<string>, manifestSize: nat) {
    && tree != map[] && |order| <= MAX_FILES && manifestSize <= MAX_MANIFEST && BytesIn(tree, order) <= MAX_TOTAL
    && forall n :: n in tree ==> ValidName(n) && |tree[n]| <= MAX_FILE
  }

  // Seal: one entry per file in the order of the walk, then the manifest of all of them. It
  // refuses a tree only for a name, a size or a count that is out of bounds.
  method Seal(tree: map<string, Data>, order: seq<string>, manifestSize: nat) returns (ok: bool, entries: seq<Entry>)
    requires Tree(tree) && (forall n :: n in order <==> n in tree)
    requires forall i, j :: 0 <= i < j < |order| ==> order[i] != order[j]
    ensures ok <==> Sealable(tree, order, manifestSize)
    ensures ok ==> entries != [] && ListedFiles(entries[..|entries| - 1]) && FilesOf(entries[..|entries| - 1]) == tree
    ensures ok ==> entries[|entries| - 1] == ManifestEntry(Some(Manifest(1, tree)), manifestSize)
    ensures ok ==> BytesOf(entries[..|entries| - 1]) == BytesIn(tree, order)
  {
    hide ValidName, Apart, ListedFiles, FilesOf, BytesOf, BytesIn;
    entries := [];
    var total: nat := 0;
    NothingListed(tree, order);
    for i := 0 to |order|
      invariant |entries| == i && total == BytesOf(entries) == BytesIn(tree, order[..i]) <= MAX_TOTAL && i <= MAX_FILES
      invariant ListedFiles(entries)
      invariant forall k :: 0 <= k < i ==> entries[k].File? && entries[k].name == order[k]
      invariant forall k :: 0 <= k < i ==> order[k] in tree && entries[k].data == tree[order[k]]
    {
      var name := order[i];
      assert name in order;
      var size := |tree[name]|;
      BytesOnward(tree, order, i);
      if !ValidName(name) || i >= MAX_FILES || size > MAX_FILE || total > MAX_TOTAL - size { return false, entries; }
      AppendListed(entries, File(name, tree[name]));
      entries, total := entries + [File(name, tree[name])], total + size;
    }
    assert order[..|order|] == order;
    if |entries| == 0 || manifestSize > MAX_MANIFEST { return false, entries; }
    ghost var files := entries;
    SameFiles(files, order, tree);
    entries := entries + [ManifestEntry(Some(Manifest(1, FilesOf(entries))), manifestSize)];
    assert entries[..|entries| - 1] == files;
    forall n | n in tree ensures ValidName(n) && |tree[n]| <= MAX_FILE { ListedValid(files, order, n); }
    ok := true;
  }

  lemma NothingListed(tree: map<string, Data>, order: seq<string>)
    ensures ListedFiles([]) && BytesOf([]) == 0 && BytesIn(tree, order[..0]) == 0
  {
  }

  lemma ListedValid(files: seq<Entry>, order: seq<string>, n: string)
    requires ListedFiles(files) && |files| == |order| && n in order
    requires forall k :: 0 <= k < |order| ==> files[k].name == order[k]
    ensures exists k :: 0 <= k < |files| && files[k].name == n && ValidName(n) && |files[k].data| <= MAX_FILE
  {
    hide ValidName, Apart;
    var k :| 0 <= k < |order| && order[k] == n;
    assert files[k].name == n;
  }

  lemma {:induction false} BytesOnward(tree: map<string, Data>, order: seq<string>, i: nat)
    requires i < |order| && order[i] in tree
    ensures BytesIn(tree, order[..i + 1]) == BytesIn(tree, order[..i]) + |tree[order[i]]|
    ensures BytesIn(tree, order[..i + 1]) <= BytesIn(tree, order)
    decreases |order|
  {
    assert order[..i + 1][..i] == order[..i];
    if i == |order| - 1 {
      assert order[..i + 1] == order;
    } else {
      var front := order[..|order| - 1];
      BytesOnward(tree, front, i);
      assert front[..i + 1] == order[..i + 1] && front[..i] == order[..i];
    }
  }

  lemma SameFiles(files: seq<Entry>, order: seq<string>, tree: map<string, Data>)
    requires ListedFiles(files) && |files| == |order| && (forall n :: n in order <==> n in tree)
    requires forall k :: 0 <= k < |order| ==> files[k].name == order[k] && files[k].name in tree && files[k].data == tree[order[k]]
    ensures FilesOf(files) == tree && |tree| == |files|
  {
    hide ValidName, Apart, FilesOf;
    FilesListed(files);
    var m := FilesOf(files);
    forall n | n in tree ensures n in m && m[n] == tree[n] {
      var k :| 0 <= k < |order| && order[k] == n;
      assert Holds(m, files[k]);
    }
    forall n | n in m ensures n in tree {
      var i :| 0 <= i < |files| && files[i].name == n;
    }
    assert m == tree;
  }

  // ----- Opening -----

  // The ciphertext, bound to its recipient; authenticated to its very end.
  datatype Sealed = Sealed(recipient: nat, entries: seq<Entry>, bytes: nat)

  // A file entry is taken while no manifest was seen, if it is valid, new, creatable and
  // within what is left.
  predicate Takes(actual: map<string, Data>, total: nat, e: Entry, limits: Limits) {
    && e.File? && ValidName(e.name) && |actual| < limits.maxFiles && |e.data| <= MAX_FILE
    && total + |e.data| <= limits.maxBytes && e.name !in actual && forall n :: n in actual ==> Apart(n, e.name)
  }

  lemma {:induction false} BytesGrow(entries: seq<Entry>, i: nat)
    requires i <= |entries|
    ensures BytesOf(entries[..i]) <= BytesOf(entries)
    decreases |entries|
  {
    if i < |entries| {
      BytesGrow(entries[..|entries| - 1], i);
      assert entries[..|entries| - 1][..i] == entries[..i];
    } else {
      assert entries[..i] == entries;
    }
  }

  lemma ListedUpTo(files: seq<Entry>, i: nat)
    requires ListedFiles(files) && i < |files|
    ensures ListedFiles(files[..i]) && files[i].File? && ValidName(files[i].name) && |files[i].data| <= MAX_FILE
    ensures forall k :: 0 <= k < i ==> files[k].File? && files[k].name != files[i].name && Apart(files[k].name, files[i].name)
  {
    hide ValidName, Apart;
  }

  // An archive that opens is taken entry by entry.
  lemma OpenableTakes(files: seq<Entry>, limits: Limits, i: nat)
    requires ListedFiles(files) && |files| <= limits.maxFiles && BytesOf(files) <= limits.maxBytes && i < |files|
    ensures files[i].File? && Takes(FilesOf(files[..i]), BytesOf(files[..i]), files[i], limits)
  {
    hide ValidName, Apart, ListedFiles, FilesOf;
    var front := files[..i];
    ListedUpTo(files, i);
    FilesListed(front);
    BytesGrow(files, i + 1);
    assert files[..i + 1][..i] == front;
    forall n | n in FilesOf(front) ensures n != files[i].name && Apart(n, files[i].name) {
      var k :| 0 <= k < |front| && front[k].name == n;
      assert files[k].name == n;
    }
  }

  // One more file keeps the list of an archive in order.
  lemma TakenListed(front: seq<Entry>, e: Entry, limits: Limits)
    requires ListedFiles(front) && Takes(FilesOf(front), BytesOf(front), e, limits)
    ensures ListedFiles(front + [e]) && FilesOf(front + [e]) == FilesOf(front)[e.name := e.data]
    ensures BytesOf(front + [e]) == BytesOf(front) + |e.data|
    ensures |FilesOf(front + [e])| == |front| + 1 <= limits.maxFiles
  {
    hide ValidName, Apart, FilesOf, BytesOf, ListedFiles;
    FilesListed(front);
    FilesAreFiles(front);
    forall i | 0 <= i < |front| ensures front[i].name != e.name && Apart(front[i].name, e.name) {
      assert Holds(FilesOf(front), front[i]);
    }
    AppendListed(front, e);
    FilesListed(front + [e]);
  }

  lemma FilesAreFiles(files: seq<Entry>)
    requires ListedFiles(files)
    ensures forall i :: 0 <= i < |files| ==> files[i].File?
  {
  }

  lemma NamesStayUnder(files: seq<Entry>)
    requires ListedFiles(files)
    ensures forall n, destination :: n in FilesOf(files) ==> Walk(destination, Split(n)) == destination + Split(n)
  {
    hide ValidName, Apart, FilesOf, Walk, Split;
    FilesListed(files);
    forall n, destination: seq<string> | n in FilesOf(files) ensures Walk(destination, Split(n)) == destination + Split(n) {
      var i :| 0 <= i < |files| && files[i].name == n;
      ValidStaysUnder(destination, n);
    }
  }

  // openFile: it fails on the first wrong entry and accepts exactly the archives that are
  // whole, within the limits and described by their manifest, as long as there is space.
  method Open(cipher: Sealed, identity: nat, expected: Sealed, expectedBytes: Option<nat>, limits: Limits, space: bool)
    returns (ok: bool, files: map<string, Data>)
    ensures ok ==> cipher == expected && Openable(cipher.entries, limits)
    ensures ok ==> files == FilesOf(cipher.entries[..|cipher.entries| - 1]) && |files| <= limits.maxFiles
    ensures ok ==> forall n, destination :: n in files ==> Walk(destination, Split(n)) == destination + Split(n)
    ensures space && cipher == expected && cipher.recipient == identity && expectedBytes in {None, Some(cipher.bytes)} ==>
      (ok <==> Openable(cipher.entries, limits))
  {
    hide ListedFiles, FilesOf, BytesOf, Walk, Split;
    files := map[];
    if cipher.recipient != identity || (expectedBytes.Some? && expectedBytes.value != cipher.bytes) { return false, files; }
    ok, files := ReadEntries(cipher.entries, limits, space);
    if !ok || cipher != expected { return false, files; }
    NamesStayUnder(cipher.entries[..|cipher.entries| - 1]);
  }

  method ReadEntries(entries: seq<Entry>, limits: Limits, space: bool) returns (ok: bool, actual: map<string, Data>)
    ensures ok ==> Openable(entries, limits) && actual == FilesOf(entries[..|entries| - 1])
    ensures ok ==> |actual| <= limits.maxFiles
    ensures space && Openable(entries, limits) ==> ok
  {
    hide Takes, ValidName, Apart, ListedFiles, FilesOf, BytesOf;
    NothingRead(entries);
    actual := map[];
    var expected: Option<Manifest>, total: nat := None, 0;
    ghost var openable := Openable(entries, limits);
    ghost var last := |entries| - 1;
    for i := 0 to |entries|
      invariant expected.None? ==> ListedFiles(entries[..i]) && actual == FilesOf(entries[..i]) && total == BytesOf(entries[..i])
      invariant expected.None? ==> |actual| == i <= limits.maxFiles && total <= limits.maxBytes
      invariant expected.Some? ==> i > 0 && entries[i - 1].ManifestEntry? && entries[i - 1].manifest == expected && entries[i - 1].size <= MAX_MANIFEST
      invariant expected.Some? ==> ListedFiles(entries[..i - 1]) && actual == FilesOf(entries[..i - 1]) && BytesOf(entries[..i - 1]) <= limits.maxBytes
      invariant expected.Some? ==> |actual| == i - 1 <= limits.maxFiles
      invariant openable ==> (expected.Some? <==> i == |entries|)
    {
      var e := entries[i];
      if openable && i < last {
        OpenableTakes(entries[..last], limits, i);
        assert entries[..last][..i] == entries[..i];
      }
      assert entries[..i + 1] == entries[..i] + [e];
      match e
      case Special(_) => return false, actual;
      case ManifestEntry(m, size) =>
        if expected.Some? || size > MAX_MANIFEST || m.None? { return false, actual; }
        expected := m;
      case File(name, data) =>
        if expected.Some? || !Takes(actual, total, e, limits) { return false, actual; }
        var fits: bool := *;
        if !fits && !space { return false, actual; }
        TakenListed(entries[..i], e, limits);
        TakenBytes(actual, total, e, limits);
        actual, total := actual[name := data], total + |data|;
    }
    if expected.None? || expected.value.version != 1 || |expected.value.files| != |actual| || |actual| == 0 { return false, actual; }
    if exists n :: n in actual && !(n in expected.value.files && expected.value.files[n] == actual[n]) { return false, actual; }
    SameMap(actual, expected.value.files);
    ok := true;
  }

  lemma NothingRead(entries: seq<Entry>)
    ensures ListedFiles(entries[..0]) && FilesOf(entries[..0]) == map[] && BytesOf(entries[..0]) == 0
  {
  }

  lemma TakenBytes(actual: map<string, Data>, total: nat, e: Entry, limits: Limits)
    requires Takes(actual, total, e, limits)
    ensures e.File? && total + |e.data| <= limits.maxBytes
  {
  }

  lemma SameMap(a: map<string, Data>, b: map<string, Data>)
    requires |a| == |b| && forall n :: n in a ==> n in b && b[n] == a[n]
    ensures a == b
  {
    assert |b.Keys - a.Keys| == |b.Keys| - |a.Keys|;
    assert b.Keys - a.Keys == {};
    assert b.Keys == a.Keys;
  }

  // Seal, then open: under any limits that hold the tree exactly the tree comes back, and
  // under any others nothing does.
  method RoundTrip(tree: map<string, Data>, order: seq<string>, manifestSize: nat, recipient: nat, bytes: nat, limits: Limits)
    returns (sealedOk: bool, ok: bool, files: map<string, Data>)
    requires Tree(tree) && (forall n :: n in order <==> n in tree)
    requires forall i, j :: 0 <= i < j < |order| ==> order[i] != order[j]
    ensures sealedOk <==> Sealable(tree, order, manifestSize)
    ensures sealedOk ==> (ok <==> |tree| <= limits.maxFiles && BytesIn(tree, order) <= limits.maxBytes)
    ensures ok ==> sealedOk && files == tree
  {
    hide ListedFiles, FilesOf, BytesOf, BytesIn, Walk, Split, ValidName;
    var entries;
    sealedOk, entries := Seal(tree, order, manifestSize);
    if !sealedOk { return false, false, map[]; }
    NonEmptyFiles(entries[..|entries| - 1]);
    var cipher := Sealed(recipient, entries, bytes);
    ok, files := Open(cipher, recipient, cipher, Some(bytes), limits, true);
  }

  lemma NonEmptyFiles(files: seq<Entry>)
    requires ListedFiles(files) && FilesOf(files) != map[]
    ensures files != [] && |files| == |FilesOf(files)|
  {
    FilesListed(files);
  }
}
