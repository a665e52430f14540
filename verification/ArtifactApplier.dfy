/** Applying a patch artifact to a file set, and reading the artifact. */
module ArtifactApplier {
  import opened Wrappers
  import opened Collections
  import opened TextFacts

  // ---- Lines ----

  predicate Line(s: string) { '\n' !in s }

  predicate AllLines(lines: seq<string>) {
    forall l | l in lines :: Line(l)
  }

  /** `content.split("\n")`. */
  function Split(content: string): (lines: seq<string>)
    ensures lines != [] && AllLines(lines)
  {
    SplitOn(content, '\n')
  }

  function Join(lines: seq<string>): string {
    JoinWith(lines, "\n")
  }

  lemma {:induction false} JoinSplit(content: string)
    ensures Join(Split(content)) == content
  {
    if content != "" {
      var rest := Split(content[1..]);
      JoinSplit(content[1..]);
      if content[0] == '\n' {
        assert ([""] + rest)[1..] == rest;
      } else if |rest| > 1 {
        var first := [content[0]] + rest[0];
        assert ([first] + rest[1..])[1..] == rest[1..];
        assert first + "\n" + Join(rest[1..]) == [content[0]] + (rest[0] + "\n" + Join(rest[1..]));
      }
    }
  }

  lemma {:induction false} SplitFirst(line: string, tail: string)
    requires Line(line)
    ensures Split(line + "\n" + tail) == [line] + Split(tail)
  {
    var s := line + "\n" + tail;
    if line == "" {
      assert s[1..] == tail;
    } else {
      assert s[1..] == line[1..] + "\n" + tail;
      SplitFirst(line[1..], tail);
      assert [s[0]] + line[1..] == line;
    }
  }

  lemma {:induction false} SplitLine(line: string)
    requires Line(line)
    ensures Split(line) == [line]
  {
    if line != "" {
      SplitLine(line[1..]);
      assert [line[0]] + line[1..] == line;
    }
  }

  lemma {:induction false} SplitJoin(lines: seq<string>)
    requires lines != [] && AllLines(lines)
    ensures Split(Join(lines)) == lines
  {
    if |lines| == 1 {
      SplitLine(lines[0]);
    } else {
      SplitJoin(lines[1..]);
      SplitFirst(lines[0], Join(lines[1..]));
    }
  }

  // ---- One edit ----

  /** Replaces lines `lineStart` to `lineEnd`, counted from one and inclusive. */
  datatype Edit = Edit(lineStart: int, lineEnd: int, newContent: string)

  datatype EditFailure = InvalidRange(lineStart: int, lineEnd: int) | ExceedsLength(lineEnd: int, length: nat)

  function NewLines(e: Edit): (lines: seq<string>)
    ensures AllLines(lines)
  {
    if e.newContent == "" then [] else Split(e.newContent)
  }

  predicate ValidRange(e: Edit) {
    1 <= e.lineStart <= e.lineEnd
  }

  predicate Fits(e: Edit, length: nat) {
    ValidRange(e) && (e.lineEnd <= length || e.lineStart == 1)
  }

  function Min(a: int, b: int): int { if a < b then a else b }

  function Splice(lines: seq<string>, e: Edit): seq<string>
    requires Fits(e, |lines|)
  {
    lines[..e.lineStart - 1] + NewLines(e) + lines[Min(e.lineEnd, |lines|)..]
  }

  function ApplyEdit(lines: seq<string>, e: Edit): Result<seq<string>, EditFailure> {
    if !ValidRange(e) then Err(InvalidRange(e.lineStart, e.lineEnd))
    else if !Fits(e, |lines|) then Err(ExceedsLength(e.lineEnd, |lines|))
    else Ok(Splice(lines, e))
  }

  function ApplyInTurn(lines: seq<string>, edits: seq<Edit>): Result<seq<string>, EditFailure>
    decreases |edits|
  {
    if edits == [] then Ok(lines)
    else
      var next :- ApplyEdit(lines, edits[0]);
      ApplyInTurn(next, edits[1..])
  }

  // ---- The order of the edits ----

  function InsertEdit(e: Edit, sorted: seq<Edit>): seq<Edit> {
    if sorted == [] || sorted[0].lineStart <= e.lineStart then [e] + sorted
    else [sorted[0]] + InsertEdit(e, sorted[1..])
  }

  /** The stable sort by descending `lineStart`. */
  function SortEdits(edits: seq<Edit>): seq<Edit> {
    if edits == [] then [] else InsertEdit(edits[0], SortEdits(edits[1..]))
  }

  predicate Descending(edits: seq<Edit>) {
    |edits| < 2 || (edits[1].lineStart <= edits[0].lineStart && Descending(edits[1..]))
  }

  lemma {:induction false} FirstStartsLast(edits: seq<Edit>, j: nat)
    requires Descending(edits) && j < |edits|
    ensures edits[j].lineStart <= edits[0].lineStart
  {
    if j > 0 {
      FirstStartsLast(edits[1..], j - 1);
    }
  }

  lemma {:induction false} InsertKeeps(e: Edit, sorted: seq<Edit>)
    ensures multiset(InsertEdit(e, sorted)) == multiset{e} + multiset(sorted)
    decreases |sorted|
  {
    if sorted != [] && e.lineStart < sorted[0].lineStart {
      InsertKeeps(e, sorted[1..]);
      assert sorted == [sorted[0]] + sorted[1..];
    }
  }

  lemma {:induction false} InsertSorts(e: Edit, sorted: seq<Edit>)
    requires Descending(sorted)
    ensures Descending(InsertEdit(e, sorted))
    decreases |sorted|
  {
    if sorted != [] && e.lineStart < sorted[0].lineStart {
      InsertSorts(e, sorted[1..]);
      assert InsertEdit(e, sorted)[1..] == InsertEdit(e, sorted[1..]);
    } else {
      assert ([e] + sorted)[1..] == sorted;
    }
  }

  lemma {:induction false} SortEditsSorts(edits: seq<Edit>)
    ensures Descending(SortEdits(edits))
  {
    if edits != [] {
      SortEditsSorts(edits[1..]);
      InsertSorts(edits[0], SortEdits(edits[1..]));
    }
  }

  lemma {:induction false} SortEditsKeeps(edits: seq<Edit>)
    ensures multiset(SortEdits(edits)) == multiset(edits)
  {
    if edits != [] {
      SortEditsKeeps(edits[1..]);
      InsertKeeps(edits[0], SortEdits(edits[1..]));
      assert edits == [edits[0]] + edits[1..];
    }
  }

  predicate Apart(e: Edit, f: Edit) {
    e.lineEnd < f.lineStart || f.lineEnd < e.lineStart
  }

  /** No two edits touch a common line. */
  predicate Disjoint(edits: seq<Edit>) {
    forall i, j | 0 <= i < j < |edits| :: Apart(edits[i], edits[j])
  }

  /** The same property of a multiset of edits. */
  predicate DisjointBag(bag: multiset<Edit>) {
    && (forall e | e in bag && ValidRange(e) :: bag[e] == 1)
    && (forall e, f | e in bag && f in bag && e != f :: Apart(e, f))
  }

  lemma {:induction false} Occurrences<T>(s: seq<T>, i: nat, j: nat)
    requires i < j < |s| && s[i] == s[j]
    ensures multiset(s)[s[i]] >= 2
  {
    assert s == s[..j] + s[j..];
    assert s[i] in s[..j] && s[j] in s[j..];
    assert multiset(s) == multiset(s[..j]) + multiset(s[j..]);
  }

  lemma {:induction false} OnceOnly<T>(s: seq<T>, i: nat)
    requires i < |s| && forall j | 0 <= j < |s| && j != i :: s[j] != s[i]
    ensures multiset(s)[s[i]] == 1
  {
    assert s == s[..i] + [s[i]] + s[i + 1..];
    assert multiset(s) == multiset(s[..i]) + multiset{s[i]} + multiset(s[i + 1..]);
    assert s[i] !in s[..i] && s[i] !in s[i + 1..];
  }

  lemma {:induction false} DisjointIsBag(edits: seq<Edit>)
    requires Disjoint(edits)
    ensures DisjointBag(multiset(edits))
  {
    forall e | e in edits && ValidRange(e) ensures multiset(edits)[e] == 1 {
      var i :| 0 <= i < |edits| && edits[i] == e;
      OnceOnly(edits, i);
    }
  }

  lemma {:induction false} BagIsDisjoint(edits: seq<Edit>)
    requires DisjointBag(multiset(edits)) && forall e | e in edits :: ValidRange(e)
    ensures Disjoint(edits)
  {
    forall i, j | 0 <= i < j < |edits| ensures Apart(edits[i], edits[j]) {
      if edits[i] == edits[j] {
        Occurrences(edits, i, j);
      }
      assert edits[i] in multiset(edits) && edits[j] in multiset(edits);
    }
  }

  // ---- Simultaneous substitution ----

  function StartingAt(edits: seq<Edit>, line: int): (r: Option<Edit>)
    ensures r.Some? ==> r.value in edits && r.value.lineStart == line
    ensures r.None? ==> forall e | e in edits :: e.lineStart != line
  {
    if edits == [] then None
    else if edits[0].lineStart == line then Some(edits[0])
    else StartingAt(edits[1..], line)
  }

  /** What the lines from index `k` on become when every edit replaces its range of the original lines. */
  function Substituted(lines: seq<string>, edits: seq<Edit>, k: nat): seq<string>
    requires k <= |lines| && forall e | e in edits :: ValidRange(e)
    decreases |lines| - k
  {
    if k == |lines| then []
    else
      var here := StartingAt(edits, k + 1);
      if here.Some? then
        assert ValidRange(here.value);
        NewLines(here.value) + Substituted(lines, edits, Min(here.value.lineEnd, |lines|))
      else [lines[k]] + Substituted(lines, edits, k + 1)
  }

  lemma {:induction false} StartingAtSame(a: seq<Edit>, b: seq<Edit>, line: int)
    requires multiset(a) == multiset(b) && DisjointBag(multiset(a)) && forall e | e in a :: ValidRange(e)
    ensures StartingAt(a, line) == StartingAt(b, line)
  {
    var x, y := StartingAt(a, line), StartingAt(b, line);
    if x.Some? {
      assert x.value in multiset(b);
      assert x.value in b;
    }
    if y.Some? {
      assert y.value in multiset(a);
      assert y.value in a;
    }
  }

  ghost predicate SameStarts(a: seq<Edit>, b: seq<Edit>) {
    forall line: int :: StartingAt(a, line) == StartingAt(b, line)
  }

  lemma {:induction false} SubstitutedByStarts(lines: seq<string>, a: seq<Edit>, b: seq<Edit>, k: nat)
    requires k <= |lines| && (forall e | e in a :: ValidRange(e)) && forall e | e in b :: ValidRange(e)
    requires SameStarts(a, b)
    ensures Substituted(lines, a, k) == Substituted(lines, b, k)
    decreases |lines| - k
  {
    if k < |lines| {
      var here := StartingAt(a, k + 1);
      assert here == StartingAt(b, k + 1);
      SubstitutedByStarts(lines, a, b, if here.Some? then Min(here.value.lineEnd, |lines|) else k + 1);
    }
  }

  /** The order in which disjoint edits are listed does not matter. */
  lemma {:induction false} SubstitutedSame(lines: seq<string>, a: seq<Edit>, b: seq<Edit>)
    requires multiset(a) == multiset(b) && DisjointBag(multiset(a))
    requires (forall e | e in a :: ValidRange(e)) && forall e | e in b :: ValidRange(e)
    ensures Substituted(lines, a, 0) == Substituted(lines, b, 0)
  {
    forall line: int ensures StartingAt(a, line) == StartingAt(b, line) {
      StartingAtSame(a, b, line);
    }
    SubstitutedByStarts(lines, a, b, 0);
  }

  lemma {:induction false} NothingLater(lines: seq<string>, edits: seq<Edit>, k: nat)
    requires k <= |lines| && forall e | e in edits :: ValidRange(e) && e.lineStart <= k
    ensures Substituted(lines, edits, k) == lines[k..]
    decreases |lines| - k
  {
    if k < |lines| {
      NothingLater(lines, edits, k + 1);
    }
  }

  /** Every edit is valid and ends before `bound`. */
  predicate Below(edits: seq<Edit>, bound: int) {
    forall e | e in edits :: ValidRange(e) && e.lineEnd < bound
  }

  /** The edit that starts last can be taken out of the substitution. */
  lemma {:induction false} LastEditOut(lines: seq<string>, edits: seq<Edit>, k: nat)
    requires edits != [] && Fits(edits[0], |lines|) && Below(edits[1..], edits[0].lineStart)
    requires k < edits[0].lineStart <= |lines|
    requires forall e | e in edits :: ValidRange(e)
    ensures var e := edits[0];
            Substituted(lines, edits, k)
            == Substituted(lines[..e.lineStart - 1], edits[1..], k) + (NewLines(e) + lines[Min(e.lineEnd, |lines|)..])
    decreases |lines| - k
  {
    var e := edits[0];
    var front := lines[..e.lineStart - 1];
    if k == e.lineStart - 1 {
      LaterStarts(edits, Min(e.lineEnd, |lines|));
      NothingLater(lines, edits, Min(e.lineEnd, |lines|));
      assert Substituted(front, edits[1..], k) == [];
    } else {
      var suffix := NewLines(e) + lines[Min(e.lineEnd, |lines|)..];
      var here := StartingAt(edits[1..], k + 1);
      assert StartingAt(edits, k + 1) == here;
      if here.Some? {
        var next := here.value.lineEnd;
        LastEditOut(lines, edits, next);
        Regroup(NewLines(here.value), Substituted(front, edits[1..], next), suffix);
      } else {
        LastEditOut(lines, edits, k + 1);
        Regroup([lines[k]], Substituted(front, edits[1..], k + 1), suffix);
      }
    }
  }

  lemma {:induction false} LaterStarts(edits: seq<Edit>, after: int)
    requires edits != [] && ValidRange(edits[0]) && Below(edits[1..], edits[0].lineStart) && edits[0].lineStart <= after
    ensures forall e | e in edits :: ValidRange(e) && e.lineStart <= after
  {
    forall e | e in edits ensures ValidRange(e) && e.lineStart <= after {
      assert edits == [edits[0]] + edits[1..];
      assert e == edits[0] || e in edits[1..];
    }
  }

  // ---- Splicing backwards is simultaneous substitution ----

  /** Each edit ends before the one listed before it starts. */
  predicate Stacked(edits: seq<Edit>) {
    edits == [] || (Below(edits[1..], edits[0].lineStart) && Stacked(edits[1..]))
  }

  lemma {:induction false} DescendingStacks(edits: seq<Edit>)
    requires Descending(edits) && Disjoint(edits) && forall e | e in edits :: ValidRange(e)
    ensures Stacked(edits)
  {
    if edits != [] {
      forall e | e in edits[1..] ensures ValidRange(e) && e.lineEnd < edits[0].lineStart {
        var j :| 1 <= j < |edits| && edits[j] == e;
        FirstStartsLast(edits, j);
        assert Apart(edits[0], edits[j]);
        assert ValidRange(edits[0]);
      }
      DescendingStacks(edits[1..]);
    }
  }

  /** One splice, seen as cutting the lines at the edit's start. */
  lemma {:induction false} SpliceCuts(front: seq<string>, tail: seq<string>, e: Edit)
    requires Fits(e, |front|) && e.lineStart <= |front| && (tail != [] ==> e.lineEnd <= |front|)
    ensures ApplyEdit(front + tail, e)
            == Ok(front[..e.lineStart - 1] + (NewLines(e) + front[Min(e.lineEnd, |front|)..] + tail))
  {
    var cut := Min(e.lineEnd, |front + tail|);
    assert (front + tail)[..e.lineStart - 1] == front[..e.lineStart - 1];
    assert (front + tail)[cut..] == front[Min(e.lineEnd, |front|)..] + tail;
    assert front[..e.lineStart - 1] + NewLines(e) + (front[Min(e.lineEnd, |front|)..] + tail)
        == front[..e.lineStart - 1] + (NewLines(e) + front[Min(e.lineEnd, |front|)..] + tail);
  }

  lemma {:induction false} InTurnIsSubstitution(front: seq<string>, tail: seq<string>, edits: seq<Edit>)
    requires Stacked(edits)
    requires forall e | e in edits ::
             Fits(e, |front|) && e.lineStart <= |front| && (tail != [] ==> e.lineEnd <= |front|)
    ensures forall e | e in edits :: ValidRange(e)
    ensures ApplyInTurn(front + tail, edits) == Ok(Substituted(front, edits, 0) + tail)
    decreases |edits|
  {
    if edits == [] {
      NothingLater(front, edits, 0);
    } else {
      var e := edits[0];
      var before := front[..e.lineStart - 1];
      var after := front[Min(e.lineEnd, |front|)..];
      SpliceCuts(front, tail, e);
      InTurnIsSubstitution(before, NewLines(e) + after + tail, edits[1..]);
      LastEditOut(front, edits, 0);
      Regroup(Substituted(before, edits[1..], 0), NewLines(e) + after, tail);
    }
  }

  lemma {:induction false} InvalidFails(lines: seq<string>, edits: seq<Edit>, e: Edit)
    requires e in edits && !ValidRange(e)
    ensures ApplyInTurn(lines, edits).Err?
    decreases |edits|
  {
    if e != edits[0] && Fits(edits[0], |lines|) {
      assert edits == [edits[0]] + edits[1..];
      InvalidFails(Splice(lines, edits[0]), edits[1..], e);
    }
  }

  lemma {:induction false} TooLongFails(lines: seq<string>, edits: seq<Edit>, e: Edit)
    requires Stacked(edits) && e in edits && (forall f | f in edits :: ValidRange(f)) && !Fits(e, |lines|)
    ensures ApplyInTurn(lines, edits).Err?
  {
    assert edits == [edits[0]] + edits[1..];
    assert !Fits(edits[0], |lines|);
  }

  /**
   * For disjoint edits, sorting and splicing from the back succeeds exactly when every edit fits the
   * original lines (or starts at line one and is clamped), and replaces all ranges at once.
   */
  lemma {:induction false} SimultaneousSubstitution(lines: seq<string>, edits: seq<Edit>)
    requires lines != [] && Disjoint(edits)
    ensures var r := ApplyInTurn(lines, SortEdits(edits));
            && (r.Ok? <==> forall e | e in edits :: Fits(e, |lines|))
            && (r.Ok? ==> r.value == Substituted(lines, edits, 0))
  {
    var sorted := SortEdits(edits);
    SortEditsSorts(edits);
    SortEditsKeeps(edits);
    SameMembers(edits, sorted);
    if e :| e in sorted && !ValidRange(e) {
      InvalidFails(lines, sorted, e);
    } else {
      DisjointIsBag(edits);
      BagIsDisjoint(sorted);
      DescendingStacks(sorted);
      if e :| e in sorted && !Fits(e, |lines|) {
        TooLongFails(lines, sorted, e);
      } else {
        assert lines + [] == lines;
        InTurnIsSubstitution(lines, [], sorted);
        SubstitutedSame(lines, edits, sorted);
      }
    }
  }

  /** The order in which the artifact lists disjoint edits changes neither success nor result. */
  lemma {:induction false} ListingOrderIrrelevant(lines: seq<string>, a: seq<Edit>, b: seq<Edit>)
    requires lines != [] && Disjoint(a) && Disjoint(b) && multiset(a) == multiset(b)
    ensures var x, y := ApplyInTurn(lines, SortEdits(a)), ApplyInTurn(lines, SortEdits(b));
            x.Ok? == y.Ok? && (x.Ok? ==> x == y)
  {
    SimultaneousSubstitution(lines, a);
    SimultaneousSubstitution(lines, b);
    SameMembers(a, b);
    DisjointIsBag(a);
    if forall e | e in a :: Fits(e, |lines|) {
      SubstitutedSame(lines, a, b);
    }
  }

  // ---- Reported lines ----

  predicate AllValid(edits: seq<Edit>) {
    forall e | e in edits :: ValidRange(e)
  }

  const WHOLE_FILE := 999999

  function EditLines(e: Edit): nat
    requires ValidRange(e)
  {
    var newLines := |NewLines(e)|;
    var oldLines := if e.lineEnd >= WHOLE_FILE then newLines else e.lineEnd - e.lineStart + 1;
    if oldLines < newLines then newLines else oldLines
  }

  function LinesChanged(edits: seq<Edit>): nat
    requires forall e | e in edits :: ValidRange(e)
  {
    if edits == [] then 0 else EditLines(edits[0]) + LinesChanged(edits[1..])
  }

  /** The lines a file ends up with, for whatever edits apply. */
  function Edited(content: string, edits: seq<Edit>): Result<string, EditFailure> {
    var lines :- ApplyInTurn(Split(content), SortEdits(edits));
    Ok(Join(lines))
  }

  // ---- The artifact ----

  datatype SourceFile = SourceFile(path: string, content: string)

  /** One file of the artifact; a missing or ill-typed list of edits counts as an empty one. */
  datatype FileEdits = FileEdits(path: string, changeType: string, edits: seq<Edit>)

  datatype Failure =
    | NoFiles | FileNotFound(path: string) | NoEdits(path: string) | BadEdit(path: string, cause: EditFailure)

  /** `new Map(...)`: a repeated path keeps its first place and its last content. */
  function Contents(files: seq<SourceFile>): (m: map<string, string>)
    ensures forall f | f in files :: f.path in m
  {
    if files == [] then map[]
    else
      var last := files[|files| - 1];
      assert files == files[..|files| - 1] + [last];
      Contents(files[..|files| - 1])[last.path := last.content]
  }

  function Paths(files: seq<SourceFile>): (paths: seq<string>)
    ensures forall p | p in paths :: p in Contents(files)
  {
    if files == [] then []
    else
      var last := files[|files| - 1];
      var paths := Paths(files[..|files| - 1]);
      if last.path in paths then paths else paths + [last.path]
  }

  function Listed(paths: seq<string>, contents: map<string, string>): seq<SourceFile>
    requires forall p | p in paths :: p in contents
  {
    if paths == [] then [] else [SourceFile(paths[0], contents[paths[0]])] + Listed(paths[1..], contents)
  }

  function ApplyEntry(contents: map<string, string>, entry: FileEdits): Result<string, Failure> {
    if entry.path !in contents then Err(FileNotFound(entry.path))
    else if entry.edits == [] then Err(NoEdits(entry.path))
    else match Edited(contents[entry.path], entry.edits)
         case Ok(content) => Ok(content)
         case Err(cause) => Err(BadEdit(entry.path, cause))
  }

  /** Every entry starts from the original content of its file. */
  function ApplyEntries(original: map<string, string>, current: map<string, string>, entries: seq<FileEdits>)
    : (r: Result<map<string, string>, Failure>)
    ensures r.Ok? ==> current.Keys <= r.value.Keys
    decreases |entries|
  {
    if entries == [] then Ok(current)
    else
      var content :- ApplyEntry(original, entries[0]);
      ApplyEntries(original, current[entries[0].path := content], entries[1..])
  }

  function Applied(files: seq<SourceFile>, artifact: seq<FileEdits>): Result<seq<SourceFile>, Failure> {
    if artifact == [] then Err(NoFiles)
    else
      var contents :- ApplyEntries(Contents(files), Contents(files), artifact);
      Ok(Listed(Paths(files), contents))
  }

  /** The splicing loop over one file's sorted edits. */
  method SpliceEdits(original: seq<string>, edits: seq<Edit>) returns (r: Result<seq<string>, EditFailure>)
    ensures r == ApplyInTurn(original, edits)
  {
    var lines := original;
    for i := 0 to |edits|
      invariant ApplyInTurn(lines, edits[i..]) == ApplyInTurn(original, edits)
    {
      var e := edits[i];
      assert edits[i..][0] == e && edits[i..][1..] == edits[i + 1..];
      if e.lineStart < 1 || e.lineEnd < e.lineStart {
        return Err(InvalidRange(e.lineStart, e.lineEnd));
      }
      if e.lineEnd > |lines| && e.lineStart != 1 {
        return Err(ExceedsLength(e.lineEnd, |lines|));
      }
      var effectiveEnd := Min(e.lineEnd, |lines|);
      var newLines := if e.newContent != "" then Split(e.newContent) else [];
      lines := lines[..e.lineStart - 1] + newLines + lines[effectiveEnd..];
    }
    return Ok(lines);
  }

  method ApplyArtifact(files: seq<SourceFile>, artifact: seq<FileEdits>) returns (r: Result<seq<SourceFile>, Failure>)
    ensures r == Applied(files, artifact)
  {
    if |artifact| == 0 {
      return Err(NoFiles);
    }
    var fileMap := Contents(files);
    var resultFiles := fileMap;
    for i := 0 to |artifact|
      invariant fileMap.Keys <= resultFiles.Keys
      invariant ApplyEntries(fileMap, resultFiles, artifact[i..]) == ApplyEntries(fileMap, fileMap, artifact)
    {
      var entry := artifact[i];
      assert artifact[i..][0] == entry && artifact[i..][1..] == artifact[i + 1..];
      if entry.path !in fileMap {
        return Err(FileNotFound(entry.path));
      }
      if |entry.edits| == 0 {
        return Err(NoEdits(entry.path));
      }
      var outcome := SpliceEdits(Split(fileMap[entry.path]), SortEdits(entry.edits));
      if outcome.Err? {
        return Err(BadEdit(entry.path, outcome.error));
      }
      resultFiles := resultFiles[entry.path := Join(outcome.value)];
    }
    return Ok(Listed(Paths(files), resultFiles));
  }

  // ---- What a whole apply means ----

  function LastEntryFor(artifact: seq<FileEdits>, path: string): (r: Option<FileEdits>)
    ensures r.Some? ==> r.value in artifact && r.value.path == path
    ensures r.None? ==> forall f | f in artifact :: f.path != path
  {
    if artifact == [] then None
    else
      var later := LastEntryFor(artifact[1..], path);
      if later.Some? then later
      else if artifact[0].path == path then Some(artifact[0])
      else None
  }

  predicate EntryFits(contents: map<string, string>, entry: FileEdits) {
    && entry.path in contents
    && entry.edits != []
    && forall e | e in entry.edits :: Fits(e, |Split(contents[entry.path])|)
  }

  function Replaced(content: string, edits: seq<Edit>): string
    requires forall e | e in edits :: ValidRange(e)
  {
    Join(Substituted(Split(content), edits, 0))
  }

  /** The content a path ends up with: its last entry's ranges replaced at once, or the original. */
  ghost predicate EndsAs(original: map<string, string>, current: map<string, string>, artifact: seq<FileEdits>,
                         path: string, content: string) {
    var entry := LastEntryFor(artifact, path);
    if entry.Some? then EntryFits(original, entry.value) && content == Replaced(original[path], entry.value.edits)
    else path in current && content == current[path]
  }

  lemma {:induction false} EntryExact(contents: map<string, string>, entry: FileEdits)
    requires Disjoint(entry.edits)
    ensures ApplyEntry(contents, entry).Ok? <==> EntryFits(contents, entry)
    ensures EntryFits(contents, entry) ==>
            ApplyEntry(contents, entry) == Ok(Replaced(contents[entry.path], entry.edits))
  {
    if entry.path in contents {
      SimultaneousSubstitution(Split(contents[entry.path]), entry.edits);
    }
  }

  lemma {:induction false} EntriesExact(original: map<string, string>, current: map<string, string>,
                                        artifact: seq<FileEdits>)
    requires forall f | f in artifact :: Disjoint(f.edits)
    ensures var r := ApplyEntries(original, current, artifact);
            && (r.Ok? <==> forall f | f in artifact :: EntryFits(original, f))
            && (r.Ok? ==> forall p | p in current :: EndsAs(original, current, artifact, p, r.value[p]))
    decreases |artifact|
  {
    if artifact != [] {
      var entry := artifact[0];
      assert artifact == [entry] + artifact[1..];
      EntryExact(original, entry);
      if EntryFits(original, entry) {
        EntriesExact(original, current[entry.path := Replaced(original[entry.path], entry.edits)], artifact[1..]);
      }
    }
  }

  lemma {:induction false} ListedAt(paths: seq<string>, contents: map<string, string>, i: nat)
    requires (forall p | p in paths :: p in contents) && i < |paths|
    ensures i < |Listed(paths, contents)| && Listed(paths, contents)[i] == SourceFile(paths[i], contents[paths[i]])
  {
    if i > 0 {
      ListedAt(paths[1..], contents, i - 1);
    }
  }

  /**
   * An artifact whose entries each hold disjoint edits applies exactly when it has entries and every edit
   * of every entry fits its file, and then every file of the snapshot is listed with the last entry for it
   * substituted into its original lines.
   */
  lemma {:induction false} ArtifactExact(files: seq<SourceFile>, artifact: seq<FileEdits>)
    requires forall f | f in artifact :: Disjoint(f.edits)
    ensures var r := Applied(files, artifact);
            r.Ok? <==> artifact != [] && forall f | f in artifact :: EntryFits(Contents(files), f)
    ensures var r := Applied(files, artifact);
            r.Ok? ==> |r.value| == |Paths(files)| && forall i | 0 <= i < |r.value| ::
              r.value[i].path == Paths(files)[i]
              && EndsAs(Contents(files), Contents(files), artifact, r.value[i].path, r.value[i].content)
  {
    var original := Contents(files);
    EntriesExact(original, original, artifact);
    if Applied(files, artifact).Ok? {
      var contents := ApplyEntries(original, original, artifact).value;
      ListedLength(Paths(files), contents);
      forall i | 0 <= i < |Paths(files)|
        ensures Listed(Paths(files), contents)[i] == SourceFile(Paths(files)[i], contents[Paths(files)[i]])
      {
        ListedAt(Paths(files), contents, i);
      }
    }
  }

  // ---- Reading the artifact ----

  datatype ChangedFile = ChangedFile(path: string, changeType: string, linesChanged: nat)

  datatype ParseError =
    | NoFilesArray | MissingPath | NoEditsFor(path: string) | InvalidRangeFor(path: string) | NothingChanged

  function Changed(f: FileEdits): Result<ChangedFile, ParseError> {
    if f.path == "" then Err(MissingPath)
    else if f.edits == [] then Err(NoEditsFor(f.path))
    else if !AllValid(f.edits) then Err(InvalidRangeFor(f.path))
    else Ok(ChangedFile(f.path, if f.changeType != "" then f.changeType else "modify", LinesChanged(f.edits)))
  }

  function Summary(artifact: seq<FileEdits>): Result<seq<ChangedFile>, ParseError> {
    if artifact == [] then Ok([])
    else
      var first :- Changed(artifact[0]);
      var rest :- Summary(artifact[1..]);
      Ok([first] + rest)
  }

  function Prepended(changed: seq<ChangedFile>, r: Result<seq<ChangedFile>, ParseError>)
    : Result<seq<ChangedFile>, ParseError>
  {
    if r.Ok? then Ok(changed + r.value) else r
  }

  function Total(changed: seq<ChangedFile>): nat {
    if changed == [] then 0 else changed[0].linesChanged + Total(changed[1..])
  }

  method CountEdits(edits: seq<Edit>) returns (r: Option<nat>)
    ensures r == if AllValid(edits) then Some(LinesChanged(edits)) else None
  {
    var count := 0;
    for i := 0 to |edits|
      invariant AllValid(edits[..i])
      invariant AllValid(edits[i..]) ==> AllValid(edits) && count + LinesChanged(edits[i..]) == LinesChanged(edits)
    {
      var e := edits[i];
      assert edits[i..] == [e] + edits[i + 1..] && edits[..i + 1] == edits[..i] + [e];
      if e.lineStart < 1 || e.lineEnd < e.lineStart {
        assert e in edits;
        return None;
      }
      count := count + EditLines(e);
    }
    return Some(count);
  }

  lemma {:induction false} TotalOfOneMore(changed: seq<ChangedFile>, one: ChangedFile)
    ensures Total(changed + [one]) == Total(changed) + one.linesChanged
  {
    if changed == [] {
      assert changed + [one] == [one];
    } else {
      assert (changed + [one])[1..] == changed[1..] + [one];
      TotalOfOneMore(changed[1..], one);
    }
  }

  lemma PrependOne(changed: seq<ChangedFile>, one: ChangedFile, r: Result<seq<ChangedFile>, ParseError>)
    ensures Prepended(changed, Prepended([one], r)) == Prepended(changed + [one], r)
  {
    if r.Ok? {
      Regroup(changed, [one], r.value);
    }
  }

  lemma NothingPrepended(r: Result<seq<ChangedFile>, ParseError>)
    ensures Prepended([], r) == r
  {
    if r.Ok? {
      assert [] + r.value == r.value;
    }
  }

  method ReadEntry(f: FileEdits) returns (r: Result<ChangedFile, ParseError>)
    ensures r == Changed(f)
  {
    if f.path == "" {
      return Err(MissingPath);
    }
    if |f.edits| == 0 {
      return Err(NoEditsFor(f.path));
    }
    var count := CountEdits(f.edits);
    if count.None? {
      return Err(InvalidRangeFor(f.path));
    }
    return Ok(ChangedFile(f.path, if f.changeType != "" then f.changeType else "modify", count.value));
  }

  method ParseArtifact(artifact: seq<FileEdits>) returns (r: Result<(seq<ChangedFile>, nat), ParseError>)
    ensures artifact == [] ==> r == Err(NoFilesArray)
    ensures artifact != [] && Summary(artifact).Err? ==> r == Err(Summary(artifact).error)
    ensures artifact != [] && Summary(artifact).Ok? ==>
              var changed := Summary(artifact).value;
              r == if Total(changed) < 1 then Err(NothingChanged) else Ok((changed, Total(changed)))
  {
    if |artifact| == 0 {
      return Err(NoFilesArray);
    }
    var changed: seq<ChangedFile> := [];
    var total := 0;
    NothingPrepended(Summary(artifact));
    assert artifact[0..] == artifact;
    for i := 0 to |artifact|
      invariant Summary(artifact) == Prepended(changed, Summary(artifact[i..])) && total == Total(changed)
    {
      assert artifact[i..][0] == artifact[i] && artifact[i..][1..] == artifact[i + 1..];
      var one := ReadEntry(artifact[i]);
      if one.Err? {
        return Err(one.error);
      }
      PrependOne(changed, one.value, Summary(artifact[i + 1..]));
      TotalOfOneMore(changed, one.value);
      changed := changed + [one.value];
      total := total + one.value.linesChanged;
    }
    assert changed + [] == changed;
    if total < 1 {
      return Err(NothingChanged);
    }
    return Ok((changed, total));
  }

  /** For any edits, disjoint or not: the last entry for a path decides, starting from the original. */
  lemma {:induction false} LastEntryDecides(original: map<string, string>, current: map<string, string>,
                                            artifact: seq<FileEdits>, path: string)
    requires ApplyEntries(original, current, artifact).Ok? && path in current
    ensures var entry := LastEntryFor(artifact, path);
            var content := ApplyEntries(original, current, artifact).value[path];
            if entry.Some? then path in original && Edited(original[path], entry.value.edits) == Ok(content)
            else content == current[path]
    decreases |artifact|
  {
    if artifact != [] {
      var content := ApplyEntry(original, artifact[0]).value;
      LastEntryDecides(original, current[artifact[0].path := content], artifact[1..], path);
    }
  }

  lemma {:induction false} ListedLength(paths: seq<string>, contents: map<string, string>)
    requires forall p | p in paths :: p in contents
    ensures |Listed(paths, contents)| == |paths|
  {
    if paths != [] {
      ListedLength(paths[1..], contents);
    }
  }
}
