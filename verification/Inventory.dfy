/** The checksum inventory of an artifact: its text, the writer and the validator. */
module Inventory {
  import opened Sorting
  import opened Folds
  import opened Indexing
  import opened Contract

  // ---- Text and lines ----

  // The characters a text is split into lines at.
  predicate IsBreak(c: char) {
    c in ['\n', '\r', '\U{0B}', '\U{0C}', '\U{1C}', '\U{1D}', '\U{1E}', '\U{85}', '\U{2028}', '\U{2029}']
  }

  predicate NoBreaks(s: string) { forall i :: 0 <= i < |s| ==> !IsBreak(s[i]) }

  function FirstBreak(s: string): (n: nat)
    ensures n <= |s| && NoBreaks(s[..n]) && (n < |s| ==> IsBreak(s[n]))
  {
    if s == "" || IsBreak(s[0]) then 0
    else
      var n := FirstBreak(s[1..]);
      assert s[..n + 1] == [s[0]] + s[1..][..n];
      n + 1
  }

  // A carriage return and the line feed after it are one break.
  function BreakLength(s: string, n: nat): (k: nat)
    requires n < |s|
    ensures 1 <= k && n + k <= |s|
  {
    if s[n] == '\r' && n + 1 < |s| && s[n + 1] == '\n' then 2 else 1
  }

  function SplitLines(s: string): (lines: seq<string>)
    ensures forall i :: 0 <= i < |lines| ==> NoBreaks(lines[i])
    decreases |s|
  {
    if s == "" then []
    else
      var n := FirstBreak(s);
      if n == |s| then (assert s[..n] == s; [s]) else [s[..n]] + SplitLines(s[n + BreakLength(s, n)..])
  }

  // Lines joined by line feeds.
  function Join(lines: seq<string>): string {
    if |lines| == 0 then "" else if |lines| == 1 then lines[0] else lines[0] + "\n" + Join(lines[1..])
  }

  function Text(lines: seq<string>): string { Join(lines) + "\n" }

  lemma {:induction false} BreakAt(line: string, rest: string)
    requires NoBreaks(line)
    ensures FirstBreak(line + "\n" + rest) == |line|
    decreases |line|
  {
    if line != "" {
      BreakAt(line[1..], rest);
      assert (line + "\n" + rest)[1..] == line[1..] + "\n" + rest;
    }
  }

  lemma SplitFirst(line: string, rest: string)
    requires NoBreaks(line)
    ensures SplitLines(line + "\n" + rest) == [line] + SplitLines(rest)
  {
    hide FirstBreak;
    var s := line + "\n" + rest;
    BreakAt(line, rest);
    assert s[..|line|] == line && s[|line|] == '\n' && s[|line| + 1..] == rest;
  }

  // Text of break-free lines splits back into them, unless there is no line at all.
  lemma {:induction false} SplitOfText(lines: seq<string>)
    requires lines != [] && forall i :: 0 <= i < |lines| ==> NoBreaks(lines[i])
    ensures SplitLines(Text(lines)) == lines
  {
    hide SplitLines;
    if |lines| == 1 {
      assert Text(lines) == lines[0] + "\n" + "";
      SplitFirst(lines[0], "");
      assert SplitLines("") == [] by { SplitEmpty(); }
    } else {
      SplitOfText(lines[1..]);
      assert Text(lines) == lines[0] + "\n" + Text(lines[1..]);
      SplitFirst(lines[0], Text(lines[1..]));
    }
  }

  lemma SplitEmpty()
    ensures SplitLines("") == []
  {
  }

  lemma TextOfNothing()
    ensures SplitLines(Text([])) == [""]
  {
  }

  // ---- One line ----

  datatype Record = Record(path: string, digest: string)

  function PathOf(r: Record): string { r.path }
  function DigestOf(r: Record): string { r.digest }
  predicate RecordLe(a: Record, b: Record) { StringLe(a.path, b.path) }

  function Print(r: Record): string { r.digest + "  " + r.path }

  // Where the first two-space separator starts.
  function Separator(line: string): (n: nat)
    ensures n < |line| ==> n + 1 < |line| && line[n] == ' ' && line[n + 1] == ' '
    ensures forall i :: 0 <= i < n && i + 1 < |line| ==> !(line[i] == ' ' && line[i + 1] == ' ')
  {
    if line == "" then 0
    else if |line| >= 2 && line[0] == ' ' && line[1] == ' ' then 0
    else Separator(line[1..]) + 1
  }

  function Parse(line: string): Option<Record> {
    var n := Separator(line);
    if n >= |line| || !IsDigest(line[..n]) then None else Some(Record(line[n + 2..], line[..n]))
  }

  lemma ParseOfPrint(r: Record)
    requires IsDigest(r.digest)
    ensures Parse(Print(r)) == Some(r)
  {
    hide Separator;
    var line := Print(r);
    var n := Separator(line);
    assert line[64] == ' ' && line[65] == ' ';
    assert line[..64] == r.digest && line[66..] == r.path;
  }

  lemma PrintOfParse(line: string)
    requires Parse(line).Some?
    ensures Print(Parse(line).value) == line && IsDigest(Parse(line).value.digest)
  {
  }

  // ---- Writing ----

  function Listing(files: seq<Record>): seq<Record> { Sort(RecordLe, files) }
  function Lines(files: seq<Record>): seq<string> { Map(Print, Listing(files)) }

  // What follows the separator of a line.
  function AfterSeparator(line: string): string {
    var n := Separator(line);
    if n >= |line| then "" else line[n + 2..]
  }

  predicate LineLe(a: string, b: string) { StringLe(AfterSeparator(a), AfterSeparator(b)) }

  // Digests every file, then sorts the lines by the path each one carries.
  method WriteChecksums(files: seq<Record>) returns (text: string)
    requires forall f :: f in files ==> IsDigest(f.digest)
    ensures text == Text(Lines(files))
  {
    hide Sort, LineLe, RecordLe, IsHex;
    var lines := [];
    var i := 0;
    while i < |files|
      invariant 0 <= i <= |files|
      invariant lines == Map(Print, files[..i])
    {
      lines := lines + [files[i].digest + "  " + files[i].path];
      i := i + 1;
    }
    assert files[..i] == files;
    forall a, b | a in files && b in files ensures LineLe(Print(a), Print(b)) == RecordLe(a, b) { LineOrder(a, b); }
    SortThroughMap(RecordLe, LineLe, Print, files);
    text := Text(Sort(LineLe, lines));
  }

  lemma LineOrder(a: Record, b: Record)
    requires IsDigest(a.digest) && IsDigest(b.digest)
    ensures LineLe(Print(a), Print(b)) == RecordLe(a, b)
  {
    hide Separator, StringLe;
    ParseOfPrint(a);
    ParseOfPrint(b);
  }

  // ---- Validating ----

  datatype Fault =
    | InvalidLine(number: nat) | DuplicatePath(path: string) | Escapes(path: string) | MissingFile(path: string)
    | Mismatch(path: string) | OutOfOrder | WrongCoverage

  // The disk under the artifact directory: where a path leads, and the digest of the file there.
  datatype Disk = Disk(resolve: string -> Option<string>, hash: string -> Option<string>)

  ghost predicate Holds(disk: Disk, files: seq<Record>) {
    && DistinctKeys(PathOf, files)
    && forall f :: f in files ==>
         IsDigest(f.digest) && disk.resolve(f.path) == Some(f.path) && disk.hash(f.path) == Some(f.digest)
  }

  // A line that raises no fault, given the paths listed so far.
  ghost predicate LineOk(disk: Disk, listed: seq<Record>, line: string) {
    && Parse(line).Some?
    && var r := Parse(line).value;
       && (forall i :: 0 <= i < |listed| ==> listed[i].path != r.path)
       && disk.resolve(r.path).Some? && disk.hash(disk.resolve(r.path).value) == Some(r.digest)
  }

  // A line that can raise no fault but a digest mismatch.
  ghost predicate Readable(disk: Disk, listed: seq<Record>, line: string) {
    && Parse(line).Some?
    && var r := Parse(line).value;
       && (forall i :: 0 <= i < |listed| ==> listed[i].path != r.path)
       && disk.resolve(r.path).Some? && disk.hash(disk.resolve(r.path).value).Some?
  }

  // Reads one line into the inventory.
  method CheckLine(disk: Disk, number: nat, line: string, listed: seq<Record>, seen: set<string>)
    returns (faults: seq<Fault>, listed': seq<Record>, seen': set<string>)
    requires Seen(PathOf, listed, seen) && DistinctKeys(PathOf, listed)
    ensures Seen(PathOf, listed', seen') && DistinctKeys(PathOf, listed')
    ensures faults == [] <==> LineOk(disk, listed, line)
    ensures faults == [] ==> listed' == listed + [Parse(line).value]
    ensures Readable(disk, listed, line) ==>
              listed' == listed + [Parse(line).value] && forall f :: f in faults ==> f.Mismatch?
  {
    hide Parse, Seen, DistinctKeys;
    listed', seen' := listed, seen;
    var parsed := Parse(line);
    if parsed.None? { return [InvalidLine(number)], listed, seen; }
    var r := parsed.value;
    SeenStep(PathOf, listed, r, seen);
    SeenIs(listed, seen, r.path);
    if r.path in seen { return [DuplicatePath(r.path)], listed, seen; }
    var target := disk.resolve(r.path);
    if target.None? { return [Escapes(r.path)], listed, seen; }
    listed', seen' := listed + [r], seen + {r.path};
    var found := disk.hash(target.value);
    faults := if found.None? then [MissingFile(r.path)] else if found.value != r.digest then [Mismatch(r.path)] else [];
  }

  lemma SeenIs(listed: seq<Record>, seen: set<string>, path: string)
    requires Seen(PathOf, listed, seen)
    ensures path in seen <==> !(forall i :: 0 <= i < |listed| ==> listed[i].path != path)
  {
  }

  // What an inventory without faults has read.
  ghost predicate Read(disk: Disk, lines: seq<string>, listed: seq<Record>) {
    && Map(Print, listed) == lines && DistinctKeys(PathOf, listed)
    && forall r :: r in listed ==>
         IsDigest(r.digest) && disk.resolve(r.path).Some? && disk.hash(disk.resolve(r.path).value) == Some(r.digest)
  }

  lemma ReadStep(disk: Disk, lines: seq<string>, listed: seq<Record>, line: string)
    requires Read(disk, lines, listed) && LineOk(disk, listed, line)
    ensures Read(disk, lines + [line], listed + [Parse(line).value])
  {
    hide Parse, Print;
    var r := Parse(line).value;
    PrintOfParse(line);
    assert Map(Print, listed + [r]) == Map(Print, listed) + [Print(r)];
    var all := listed + [r];
    forall i, j | 0 <= i < j < |all| ensures PathOf(all[i]) != PathOf(all[j]) {
      if j < |listed| { assert PathOf(listed[i]) != PathOf(listed[j]); }
    }
  }

  // The record list a faultless line sequence stands for is unique.
  lemma LineFaultRejects(disk: Disk, lines: seq<string>, listed: seq<Record>, i: nat, files: seq<Record>)
    requires i < |lines| && Read(disk, lines[..i], listed) && Holds(disk, files) && lines == Lines(files)
    ensures LineOk(disk, listed, lines[i])
  {
    hide Parse, Print, Sort;
    var listing := Listing(files);
    MultisetMembers(files, listing);
    DistinctKeysReordered(PathOf, files, listing);
    assert listing[i] in listing;
    ParseOfPrint(listing[i]);
    forall k | 0 <= k < |listed| ensures listed[k].path != listing[i].path {
      assert lines[..i][k] == Print(listed[k]) && lines[k] == Print(listing[k]);
      assert listing[k] in listing && listed[k] in listed;
      ParseOfPrint(listing[k]);
      ParseOfPrint(listed[k]);
      assert PathOf(listing[k]) != PathOf(listing[i]);
    }
  }

  // Sorted, complete and faultless: the listing of the files.
  lemma ReadIsListing(disk: Disk, lines: seq<string>, listed: seq<Record>, files: seq<Record>)
    requires Read(disk, lines, listed) && Holds(disk, files)
    ensures (Map(PathOf, listed) == Sort(StringLe, Map(PathOf, listed))
             && (forall p :: p in Map(PathOf, listed) <==> p in Map(PathOf, files)))
            <==> lines == Lines(files)
  {
    hide Parse, Print, Sort;
    var listing := Listing(files);
    RecordOrder();
    SortSorted(RecordLe, files);
    MultisetMembers(files, listing);
    if lines == Lines(files) {
      SamePrints(listed, listing);
      SortedPaths(listing);
      MapReordered(PathOf, files, listing);
      MultisetMembers(Map(PathOf, files), Map(PathOf, listing));
    }
    if Map(PathOf, listed) == Sort(StringLe, Map(PathOf, listed))
       && (forall p :: p in Map(PathOf, listed) <==> p in Map(PathOf, files)) {
      SameRecords(disk, listed, files);
      StringOrder();
      SortSorted(StringLe, Map(PathOf, listed));
      assert Sorted(RecordLe, listed) by { RecordsSorted(listed); }
      forall x, y | x in listed && y in listed && RecordLe(x, y) && RecordLe(y, x) ensures x == y {
        StringLeTotal(x.path, y.path);
        FindByIs(PathOf, listed, x.path);
      }
      SortedUnique(RecordLe, listed, listing);
    }
  }

  lemma RecordOrder()
    ensures TotalPreorder(RecordLe)
  {
    StringOrder();
    assert forall a: string, b :: StringLe(a, b) || StringLe(b, a);
    assert forall a: string, b, c :: StringLe(a, b) && StringLe(b, c) ==> StringLe(a, c);
  }

  lemma SamePrints(xs: seq<Record>, ys: seq<Record>)
    requires Map(Print, xs) == Map(Print, ys)
    requires (forall r :: r in xs ==> IsDigest(r.digest)) && (forall r :: r in ys ==> IsDigest(r.digest))
    ensures xs == ys
  {
    hide Parse, Print;
    assert |xs| == |Map(Print, xs)| == |ys|;
    forall i | 0 <= i < |xs| ensures xs[i] == ys[i] {
      assert xs[i] in xs && ys[i] in ys;
      assert Map(Print, xs)[i] == Map(Print, ys)[i];
      ParseOfPrint(xs[i]);
      ParseOfPrint(ys[i]);
    }
  }

  lemma SortedPaths(listing: seq<Record>)
    requires Sorted(RecordLe, listing)
    ensures Sort(StringLe, Map(PathOf, listing)) == Map(PathOf, listing)
  {
    var paths := Map(PathOf, listing);
    forall i, j | 0 <= i < j < |paths| ensures StringLe(paths[i], paths[j]) { assert RecordLe(listing[i], listing[j]); }
    SortOfSorted(StringLe, paths);
  }

  lemma RecordsSorted(listed: seq<Record>)
    requires Sorted(StringLe, Map(PathOf, listed))
    ensures Sorted(RecordLe, listed)
  {
  }

  // Matching digests and equal coverage leave no room: the records are the files.
  lemma SameRecords(disk: Disk, listed: seq<Record>, files: seq<Record>)
    requires Holds(disk, files) && DistinctKeys(PathOf, listed)
    requires forall r :: r in listed ==>
               disk.resolve(r.path).Some? && disk.hash(disk.resolve(r.path).value) == Some(r.digest)
    requires forall p :: p in Map(PathOf, listed) <==> p in Map(PathOf, files)
    ensures multiset(listed) == multiset(files)
  {
    forall r | r in listed ensures r in files {
      var i := Find(listed, r);
      assert Map(PathOf, listed)[i] == r.path;
      var j := Find(Map(PathOf, files), r.path);
      assert files[j] in files;
    }
    forall f | f in files ensures f in listed {
      var i := Find(files, f);
      assert Map(PathOf, files)[i] == f.path;
      var j := Find(Map(PathOf, listed), f.path);
      assert listed[j] in listed;
    }
    RecordsNoRepeats(listed);
    RecordsNoRepeats(files);
    SameMembers(listed, files);
  }

  lemma RecordsNoRepeats(xs: seq<Record>)
    requires DistinctKeys(PathOf, xs)
    ensures NoRepeats(xs)
  {
  }

  function PathSet(files: seq<Record>): set<string> { set f | f in files :: f.path }

  // The text lists exactly these paths, each once and in order, with some digest.
  ghost predicate Inventories(text: string, paths: set<string>, listing: seq<Record>) {
    && SplitLines(text) == Map(Print, listing) && (forall r :: r in listing ==> IsDigest(r.digest))
    && Sorted(StringLe, Map(PathOf, listing)) && NoRepeats(Map(PathOf, listing))
    && PathSet(listing) == paths
  }

  // A text inventories one listing at most.
  lemma InventoryIsUnique(text: string, paths: set<string>, a: seq<Record>, b: seq<Record>)
    requires Inventories(text, paths, a) && Inventories(text, paths, b)
    ensures a == b
  {
    hide SplitLines, Print;
    SamePrints(a, b);
  }

  // Every line of an inventory of the files is readable.
  lemma InventoryLine(disk: Disk, text: string, files: seq<Record>, listing: seq<Record>, i: nat)
    requires Holds(disk, files) && Inventories(text, PathSet(files), listing) && i < |listing|
    ensures i < |SplitLines(text)| && Parse(SplitLines(text)[i]) == Some(listing[i])
    ensures Readable(disk, listing[..i], SplitLines(text)[i])
  {
    hide SplitLines, Print, Parse;
    assert listing[i] in listing;
    ParseOfPrint(listing[i]);
    assert listing[i].path in PathSet(listing);
    assert listing[i].path in PathSet(files);
    var f :| f in files && f.path == listing[i].path;
    forall k | 0 <= k < i ensures listing[..i][k].path != listing[i].path {
      assert Map(PathOf, listing)[k] != Map(PathOf, listing)[i];
    }
  }

  // Reads every line, then tests order and coverage. No fault means the text is exactly the sorted listing.
  method ValidateInventory(disk: Disk, text: string, files: seq<Record>) returns (faults: seq<Fault>)
    requires Holds(disk, files)
    ensures faults == [] <==> SplitLines(text) == Lines(files)
    ensures forall listing :: Inventories(text, PathSet(files), listing) ==>
              forall f :: f in faults ==> f.Mismatch?
  {
    hide SplitLines, Lines, Seen, Read, Holds, Sort, LineOk, Inventories, Readable, Parse, Print;
    var lines := SplitLines(text);
    var actual := PathSet(files);
    ghost var inventory := ChosenListing(text, actual);
    ghost var inventories := Inventories(text, actual, inventory);
    faults := [];
    var listed: seq<Record>, seen: set<string> := [], {};
    NothingSeen(PathOf, listed);
    assert Read(disk, lines[..0], listed) by { NothingRead(disk, lines); }
    if inventories { InventoryLength(text, actual, inventory); }
    var i := 0;
    while i < |lines|
      invariant 0 <= i <= |lines|
      invariant Seen(PathOf, listed, seen) && DistinctKeys(PathOf, listed)
      invariant faults == [] ==> Read(disk, lines[..i], listed)
      invariant faults != [] ==> lines != Lines(files)
      invariant inventories ==> listed == inventory[..i] && forall f :: f in faults ==> f.Mismatch?
    {
      if inventories { InventoryLine(disk, text, files, inventory, i); }
      var more, listed', seen' := CheckLine(disk, i + 1, lines[i], listed, seen);
      PrefixStep(lines, i);
      if faults == [] {
        if more == [] {
          ReadStep(disk, lines[..i], listed, lines[i]);
        } else if lines == Lines(files) {
          LineFaultRejects(disk, lines, listed, i, files);
        }
      }
      faults, listed, seen := faults + more, listed', seen';
      i := i + 1;
    }
    assert lines[..i] == lines;
    if inventories { InventoryCloses(text, actual, inventory, listed); }
    if faults == [] { ReadIsListing(disk, lines, listed, files); }
    var paths := Map(PathOf, listed);
    if paths != Sort(StringLe, paths) { faults := faults + [OutOfOrder]; }
    CoverageIs(paths, files);
    if (set p | p in paths) != actual { faults := faults + [WrongCoverage]; }
  }

  // The listing a text inventories, if there is one.
  ghost function ChosenListing(text: string, paths: set<string>): (listing: seq<Record>)
    ensures (exists l :: Inventories(text, paths, l)) ==> Inventories(text, paths, listing)
  {
    if exists l :: Inventories(text, paths, l) then (var l :| Inventories(text, paths, l); l) else []
  }

  lemma InventoryLength(text: string, paths: set<string>, listing: seq<Record>)
    requires Inventories(text, paths, listing)
    ensures |SplitLines(text)| == |listing|
  {
  }

  lemma InventoryCloses(text: string, paths: set<string>, listing: seq<Record>, listed: seq<Record>)
    requires Inventories(text, paths, listing) && listed == listing[..|SplitLines(text)|]
    ensures Map(PathOf, listed) == Sort(StringLe, Map(PathOf, listed)) && (set p | p in Map(PathOf, listed)) == paths
  {
    hide SplitLines, Sort;
    InventoryLength(text, paths, listing);
    assert listed == listing;
    SortOfSorted(StringLe, Map(PathOf, listed));
    var p := set p | p in Map(PathOf, listed);
    forall x ensures x in p <==> x in paths {
      if x in paths {
        var r :| r in listing && r.path == x;
        var i := Find(listing, r);
        assert Map(PathOf, listed)[i] == x;
      }
      if x in p {
        var i := Find(Map(PathOf, listed), x);
        assert listing[i] in listing;
      }
    }
  }

  lemma NothingRead(disk: Disk, lines: seq<string>)
    ensures Read(disk, lines[..0], [])
  {
  }

  lemma CoverageIs(paths: seq<string>, files: seq<Record>)
    ensures (set p | p in paths) == PathSet(files) <==> forall p :: p in paths <==> p in Map(PathOf, files)
  {
    var a, b := (set p | p in paths), PathSet(files);
    forall p ensures p in b <==> p in Map(PathOf, files) {
      if p in Map(PathOf, files) { var i := Find(Map(PathOf, files), p); assert files[i] in files; }
      if p in b { var f :| f in files && f.path == p; var i := Find(files, f); assert Map(PathOf, files)[i] == p; }
    }
    assert forall p :: p in a <==> p in paths;
  }

  // ---- Writing, then validating ----

  // The validator accepts what was written exactly when there is a file and no path breaks a line; after
  // that it accepts no other set of files.
  lemma WrittenInventoryAccepts(written: seq<Record>, files: seq<Record>)
    requires DistinctKeys(PathOf, written) && DistinctKeys(PathOf, files)
    requires forall f :: f in written ==> IsDigest(f.digest)
    requires forall f :: f in files ==> IsDigest(f.digest)
    ensures SplitLines(Text(Lines(written))) == Lines(written)
            <==> written != [] && forall f :: f in written ==> NoBreaks(f.path)
    ensures written != [] && (forall f :: f in written ==> NoBreaks(f.path))
            ==> (SplitLines(Text(Lines(written))) == Lines(files) <==> multiset(written) == multiset(files))
  {
    hide SplitLines, Sort, Print, Text;
    var lines, listing := Lines(written), Listing(written);
    MultisetMembers(listing, written);
    if written == [] {
      assert lines == [];
      TextOfNothing();
    } else if forall f :: f in written ==> NoBreaks(f.path) {
      forall i | 0 <= i < |lines| ensures NoBreaks(lines[i]) {
        assert listing[i] in listing;
        PrintHasNoBreaks(listing[i]);
      }
      SplitOfText(lines);
      SameLines(written, files);
    } else {
      var f :| f in written && !NoBreaks(f.path);
      var i := Find(listing, f);
      PrintKeepsBreaks(f);
      assert !NoBreaks(lines[i]);
    }
  }

  lemma PrintHasNoBreaks(r: Record)
    requires IsDigest(r.digest) && NoBreaks(r.path)
    ensures NoBreaks(Print(r))
  {
  }

  lemma PrintKeepsBreaks(r: Record)
    requires !NoBreaks(r.path)
    ensures !NoBreaks(Print(r))
  {
    var i :| 0 <= i < |r.path| && IsBreak(r.path[i]);
    assert Print(r)[|r.digest| + 2 + i] == r.path[i];
  }

  lemma SameLines(written: seq<Record>, files: seq<Record>)
    requires DistinctKeys(PathOf, written) && DistinctKeys(PathOf, files)
    requires (forall f :: f in written ==> IsDigest(f.digest)) && (forall f :: f in files ==> IsDigest(f.digest))
    ensures Lines(written) == Lines(files) <==> multiset(written) == multiset(files)
  {
    hide Sort, Print;
    MultisetMembers(Listing(written), written);
    MultisetMembers(Listing(files), files);
    if Lines(written) == Lines(files) { SamePrints(Listing(written), Listing(files)); }
    if multiset(written) == multiset(files) {
      RecordOrder();
      forall x, y | x in written && y in written && RecordLe(x, y) && RecordLe(y, x) ensures x == y {
        StringLeTotal(x.path, y.path);
        FindByIs(PathOf, written, x.path);
      }
      SortUnique(RecordLe, written, files);
    }
  }
}
