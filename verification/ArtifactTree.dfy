/** The fingerprint preflight: a worklist walk over an artifact directory, then its inventory checked
    before any payload is opened. Directories list their entries in the order the scan yields them. */
module ArtifactTree {
  import opened Sorting
  import opened Folds
  import opened Indexing
  import opened Contract
  import opened Paths
  import opened Inventory

  // `Special` stands for links, pipes and devices.
  datatype Node = File(digest: string) | Directory(entries: seq<Entry>) | Special
  datatype Entry = Entry(name: string, node: Node)

  datatype Found = Found(path: string, name: string, node: Node)

  const MAX_ENTRIES := 10000
  const CHECKSUMS := "checksums.sha256"

  function Under(dir: string, name: string): string { if dir == "" then name else dir + "/" + name }

  // Every entry below a directory, each directory before what it holds.
  function Walk(dir: string, entries: seq<Entry>): seq<Found>
    decreases entries
  {
    if entries == [] then []
    else
      var e, path := entries[0], Under(dir, entries[0].name);
      [Found(path, e.name, e.node)] + (if e.node.Directory? then Walk(path, e.node.entries) else [])
      + Walk(dir, entries[1..])
  }

  // What the preflight demands of every entry.
  predicate EntryOk(f: Found) {
    StrictRelative(f.path) && !f.node.Special? && (f.node.File? && f.name == CHECKSUMS ==> f.path == CHECKSUMS)
  }

  function FoundPath(f: Found): string { f.path }

  // `files` holds exactly the regular files met.
  ghost predicate Collects(found: seq<Found>, files: map<string, string>) {
    && (forall f :: f in found && f.node.File? ==> f.path in files && files[f.path] == f.node.digest)
    && (forall p :: p in files ==> exists f :: f in found && f.node.File? && f.path == p)
  }

  // ---- The worklist ----

  datatype Job = Job(dir: string, entries: seq<Entry>)

  function JobWalk(pending: seq<Job>): seq<Found> {
    if pending == [] then [] else Walk(pending[0].dir, pending[0].entries) + JobWalk(pending[1..])
  }

  function Size(pending: seq<Job>): nat { |JobWalk(pending)| + |pending| }

  lemma {:induction false} JobWalkSnoc(pending: seq<Job>, job: Job)
    ensures JobWalk(pending + [job]) == JobWalk(pending) + Walk(job.dir, job.entries)
  {
    hide Walk;
    if pending == [] {
      assert pending + [job] == [job];
    } else {
      assert (pending + [job])[1..] == pending[1..] + [job];
      JobWalkSnoc(pending[1..], job);
    }
  }

  // The entries already taken and those still to come make up the whole tree.
  ghost predicate Splits(done: seq<Found>, pending: seq<Job>, rest: seq<Found>, all: seq<Found>) {
    multiset(done) + multiset(JobWalk(pending)) + multiset(rest) == multiset(all)
  }

  ghost predicate DoneOk(done: seq<Found>, files: map<string, string>) {
    (forall f :: f in done ==> EntryOk(f)) && Collects(done, files)
  }

  lemma WalkStep(dir: string, entries: seq<Entry>, i: nat)
    requires i < |entries|
    ensures var e, path := entries[i], Under(dir, entries[i].name);
            Walk(dir, entries[i..]) == [Found(path, e.name, e.node)]
                                       + (if e.node.Directory? then Walk(path, e.node.entries) else [])
                                       + Walk(dir, entries[i + 1..])
  {
  }

  lemma SplitsMember(done: seq<Found>, pending: seq<Job>, rest: seq<Found>, all: seq<Found>)
    requires Splits(done, pending, rest, all)
    ensures |done| + |JobWalk(pending)| + |rest| == |all|
    ensures (forall f :: f in done ==> f in all) && forall f :: f in rest ==> f in all
  {
    hide JobWalk;
    assert |multiset(all)| == |all|;
    forall f | f in done ensures f in all { assert f in multiset(done); assert f in multiset(all); }
    forall f | f in rest ensures f in all { assert f in multiset(rest); assert f in multiset(all); }
  }

  lemma Rejects(done: seq<Found>, pending: seq<Job>, rest: seq<Found>, all: seq<Found>)
    requires Splits(done, pending, rest, all) && rest != []
    requires |done| >= MAX_ENTRIES || !EntryOk(rest[0])
    ensures |all| > MAX_ENTRIES || exists f :: f in all && !EntryOk(f)
  {
    SplitsMember(done, pending, rest, all);
    assert rest[0] in rest;
  }

  // The accumulated files after one more entry; paths are unique, so nothing is overwritten.
  lemma CollectStep(all: seq<Found>, done: seq<Found>, pending: seq<Job>, rest: seq<Found>,
                    files: map<string, string>, f: Found, files': map<string, string>)
    requires DistinctKeys(FoundPath, all) && Splits(done, pending, rest, all) && rest != [] && rest[0] == f
    requires DoneOk(done, files) && EntryOk(f)
    requires files' == if f.node.File? then files[f.path := f.node.digest] else files
    ensures DoneOk(done + [f], files')
  {
    hide EntryOk, JobWalk;
    forall g | g in done ensures g.path != f.path { PathsDiffer(all, done, pending, rest, g); }
    var done' := done + [f];
    forall p | p in files' ensures exists g :: g in done' && g.node.File? && g.path == p {
      if p in files {
        var g :| g in done && g.node.File? && g.path == p;
        assert g in done';
      } else {
        assert f in done';
      }
    }
  }

  lemma PathsDiffer(all: seq<Found>, done: seq<Found>, pending: seq<Job>, rest: seq<Found>, g: Found)
    requires DistinctKeys(FoundPath, all) && Splits(done, pending, rest, all) && rest != [] && g in done
    ensures g.path != rest[0].path
  {
    hide JobWalk;
    var pieces := done + (JobWalk(pending) + rest);
    assert multiset(pieces) == multiset(all);
    DistinctKeysReordered(FoundPath, all, pieces);
    var i := Find(done, g);
    assert pieces[i] == g && pieces[|done| + |JobWalk(pending)|] == rest[0];
    assert FoundPath(pieces[i]) != FoundPath(pieces[|done| + |JobWalk(pending)|]);
  }

  // Scans one directory, pushing the directories it holds.
  method ScanDirectory(job: Job, pending: seq<Job>, files: map<string, string>, count: nat, ghost done: seq<Found>,
                       ghost all: seq<Found>)
    returns (ok: bool, pending': seq<Job>, files': map<string, string>, count': nat, ghost done': seq<Found>)
    requires DistinctKeys(FoundPath, all) && Splits(done, pending, Walk(job.dir, job.entries), all)
    requires count == |done| <= MAX_ENTRIES && DoneOk(done, files)
    ensures !ok ==> |all| > MAX_ENTRIES || exists f :: f in all && !EntryOk(f)
    ensures ok ==> && Splits(done', pending', [], all) && count' == |done'| <= MAX_ENTRIES && DoneOk(done', files')
                   && Size(pending') <= Size(pending) + |Walk(job.dir, job.entries)|
  {
    hide EntryOk, DoneOk, Splits, Walk, JobWalk;
    pending', files', count', done' := pending, files, count, done;
    var i := 0;
    assert job.entries[0..] == job.entries;
    while i < |job.entries|
      invariant 0 <= i <= |job.entries|
      invariant Splits(done', pending', Walk(job.dir, job.entries[i..]), all)
      invariant count' == |done'| <= MAX_ENTRIES && DoneOk(done', files')
      invariant Size(pending') + |Walk(job.dir, job.entries[i..])| <= Size(pending) + |Walk(job.dir, job.entries)|
    {
      var e := job.entries[i];
      var path := Under(job.dir, e.name);
      ghost var rest := Walk(job.dir, job.entries[i..]);
      WalkStep(job.dir, job.entries, i);
      if count' + 1 > MAX_ENTRIES || !EntryOk(Found(path, e.name, e.node)) {
        Rejects(done', pending', rest, all);
        return false, pending', files', count', done';
      }
      count' := count' + 1;
      ghost var before := done';
      ghost var filesBefore := files';
      ghost var pendingBefore := pending';
      var f := Found(path, e.name, e.node);
      if e.node.Directory? {
        JobWalkSnoc(pending', Job(path, e.node.entries));
        pending' := pending' + [Job(path, e.node.entries)];
      } else if e.node.File? {
        files' := files'[path := e.node.digest];
      }
      done' := done' + [f];
      CollectStep(all, before, pendingBefore, rest, filesBefore, f, files');
      SplitsStep(before, pendingBefore, pending', job, i, all);
      i := i + 1;
    }
    assert Walk(job.dir, job.entries[i..]) == [] by { EmptyWalk(job, i); }
    ok := true;
  }

  lemma EmptyWalk(job: Job, i: nat)
    requires i == |job.entries|
    ensures Walk(job.dir, job.entries[i..]) == []
  {
  }

  lemma SplitsStep(done: seq<Found>, pending: seq<Job>, pending': seq<Job>, job: Job, i: nat, all: seq<Found>)
    requires i < |job.entries| && Splits(done, pending, Walk(job.dir, job.entries[i..]), all)
    requires var e := job.entries[i];
             pending' == if e.node.Directory? then pending + [Job(Under(job.dir, e.name), e.node.entries)] else pending
    ensures var e := job.entries[i];
            Splits(done + [Found(Under(job.dir, e.name), e.name, e.node)], pending',
                   Walk(job.dir, job.entries[i + 1..]), all)
  {
    hide JobWalk, Walk;
    var e := job.entries[i];
    var path := Under(job.dir, e.name);
    WalkStep(job.dir, job.entries, i);
    if e.node.Directory? { JobWalkSnoc(pending, Job(path, e.node.entries)); }
  }

  // Walks the whole tree. It succeeds exactly on trees of plain files and directories within the limit,
  // with plain names and no nested inventory, and then holds exactly their regular files.
  method CollectFiles(root: seq<Entry>) returns (files: Option<map<string, string>>)
    requires DistinctKeys(FoundPath, Walk("", root))
    ensures files.Some? <==> |Walk("", root)| <= MAX_ENTRIES && forall f :: f in Walk("", root) ==> EntryOk(f)
    ensures files.Some? ==> Collects(Walk("", root), files.value)
  {
    hide EntryOk, Walk, Splits, JobWalk, Collects;
    ghost var all := Walk("", root);
    var pending := [Job("", root)];
    var collected: map<string, string>, count := map[], 0;
    ghost var done: seq<Found> := [];
    assert Splits(done, pending, [], all) && Collects(done, collected) by { StartWalk(root); }
    while pending != []
      invariant Splits(done, pending, [], all) && count == |done| <= MAX_ENTRIES && DoneOk(done, collected)
      decreases Size(pending)
    {
      var job, rest := pending[|pending| - 1], pending[..|pending| - 1];
      assert pending == rest + [job];
      JobWalkSnoc(rest, job);
      PopSplits(done, rest, job, all);
      var ok;
      ok, pending, collected, count, done := ScanDirectory(job, rest, collected, count, done, all);
      if !ok { return None; }
    }
    assert multiset(done) == multiset(all) by { AllDone(done, all); }
    MultisetMembers(done, all);
    files := Some(collected);
    CollectsReordered(done, all, collected);
  }

  lemma StartWalk(root: seq<Entry>)
    ensures Splits([], [Job("", root)], [], Walk("", root)) && Collects([], map[])
  {
    hide Walk;
    var job := Job("", root);
    assert [job][1..] == [];
    assert JobWalk([job]) == Walk("", root) + [];
    assert multiset(JobWalk([job])) == multiset(Walk("", root));
  }

  lemma PopSplits(done: seq<Found>, rest: seq<Job>, job: Job, all: seq<Found>)
    requires Splits(done, rest + [job], [], all)
    ensures Splits(done, rest, Walk(job.dir, job.entries), all)
  {
    hide Walk, JobWalk;
    JobWalkSnoc(rest, job);
  }

  lemma AllDone(done: seq<Found>, all: seq<Found>)
    requires Splits(done, [], [], all)
    ensures multiset(done) == multiset(all)
  {
  }

  lemma CollectsReordered(done: seq<Found>, all: seq<Found>, files: map<string, string>)
    requires multiset(done) == multiset(all) && Collects(done, files)
    ensures Collects(all, files)
  {
    MultisetMembers(done, all);
    forall p | p in files ensures exists f :: f in all && f.node.File? && f.path == p {
      var f :| f in done && f.node.File? && f.path == p;
      assert f in all;
    }
  }

  // ---- The inventory, before any payload is opened ----

  // Reads the inventory text against the retained paths; stops at the first fault.
  method ReadInventory(text: string, expected: set<string>) returns (listing: Option<seq<Record>>)
    requires forall p :: p in expected ==> StrictRelative(p)
    ensures listing.Some? <==> exists l :: Inventories(text, expected, l)
    ensures listing.Some? ==> Inventories(text, expected, listing.value)
  {
    hide SplitLines, Parse, Print, Seen, Inventories, StrictRelative, Sort;
    var lines := SplitLines(text);
    var listed: seq<Record>, seen: set<string> := [], {};
    NothingSeen(PathOf, listed);
    var i := 0;
    while i < |lines|
      invariant 0 <= i <= |lines|
      invariant Seen(PathOf, listed, seen) && DistinctKeys(PathOf, listed)
      invariant Map(Print, listed) == lines[..i]
      invariant forall r :: r in listed ==> IsDigest(r.digest) && r.path in expected
    {
      var parsed := Parse(lines[i]);
      PrefixStep(lines, i);
      if parsed.None? || !StrictRelative(parsed.value.path) || parsed.value.path in seen
         || parsed.value.path !in expected {
        forall l | Inventories(text, expected, l) ensures false { LineBelongs(text, expected, l, listed, seen, i); }
        return None;
      }
      var r := parsed.value;
      PrintOfParse(lines[i]);
      SeenStep(PathOf, listed, r, seen);
      assert Map(Print, listed + [r]) == Map(Print, listed) + [Print(r)];
      listed, seen := listed + [r], seen + {r.path};
      i := i + 1;
    }
    assert lines[..i] == lines;
    Closing(text, expected, listed);
    var paths := Map(PathOf, listed);
    if paths != Sort(StringLe, paths) || PathSet(listed) != expected { return None; }
    listing := Some(listed);
  }

  // Each line of an inventory passes every test on it.
  lemma LineBelongs(text: string, expected: set<string>, l: seq<Record>, listed: seq<Record>, seen: set<string>, i: nat)
    requires Inventories(text, expected, l) && i < |SplitLines(text)| && Map(Print, listed) == SplitLines(text)[..i]
    requires (forall p :: p in expected ==> StrictRelative(p)) && (forall r :: r in listed ==> IsDigest(r.digest))
    requires Seen(PathOf, listed, seen)
    ensures var line := SplitLines(text)[i];
            && Parse(line).Some? && StrictRelative(Parse(line).value.path) && Parse(line).value.path !in seen
            && Parse(line).value.path in expected
  {
    hide SplitLines, Parse, Print, StrictRelative;
    assert |l| == |SplitLines(text)|;
    assert l[i] in l;
    ParseOfPrint(l[i]);
    assert l[i].path in PathSet(l);
    assert Map(Print, l[..i]) == SplitLines(text)[..i];
    assert forall r :: r in l[..i] ==> r in l;
    SamePrints(listed, l[..i]);
    forall k | 0 <= k < i ensures PathOf(listed[k]) != l[i].path {
      assert Map(PathOf, l)[k] != Map(PathOf, l)[i];
    }
  }

  lemma Closing(text: string, expected: set<string>, listed: seq<Record>)
    requires Map(Print, listed) == SplitLines(text) && DistinctKeys(PathOf, listed)
    requires forall r :: r in listed ==> IsDigest(r.digest)
    ensures Map(PathOf, listed) == Sort(StringLe, Map(PathOf, listed)) && PathSet(listed) == expected
            ==> Inventories(text, expected, listed)
    ensures forall l :: Inventories(text, expected, l) ==>
              l == listed && Map(PathOf, listed) == Sort(StringLe, Map(PathOf, listed)) && PathSet(listed) == expected
  {
    hide SplitLines, Print, Sort;
    StringOrder();
    SortSorted(StringLe, Map(PathOf, listed));
    DistinctMap(PathOf, listed);
    forall l | Inventories(text, expected, l)
      ensures l == listed && Map(PathOf, listed) == Sort(StringLe, Map(PathOf, listed)) && PathSet(listed) == expected
    {
      SamePrints(l, listed);
      SortOfSorted(StringLe, Map(PathOf, l));
    }
  }

  // Once the listed digests are the files' own, the validator that opens the files finds no fault.
  lemma PreflightThenValidate(text: string, files: seq<Record>, listing: seq<Record>)
    requires DistinctKeys(PathOf, files) && (forall f :: f in files ==> IsDigest(f.digest))
    requires Inventories(text, PathSet(files), listing)
    ensures SplitLines(text) == Lines(files) <==> forall r :: r in listing ==> r in files
  {
    hide SplitLines, Print, Sort;
    if SplitLines(text) == Lines(files) {
      MultisetMembers(Listing(files), files);
      SamePrints(listing, Listing(files));
    }
    if forall r :: r in listing ==> r in files {
      DistinctMap(PathOf, listing);
      forall f | f in files ensures f in listing {
        assert f.path in PathSet(files) && f.path in PathSet(listing);
        var r :| r in listing && r.path == f.path;
        FindByIs(PathOf, files, f.path);
      }
      RecordsNoRepeats(listing);
      RecordsNoRepeats(files);
      SameMembers(listing, files);
      RecordsSorted(listing);
      SortOfSorted(RecordLe, listing);
      SameLines(listing, files);
    }
  }
}
