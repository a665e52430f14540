/** How the line counts reported when an artifact is read bound the changes made when it is applied. */
module LineAccounting {
  import opened Wrappers
  import opened Collections
  import opened ArtifactApplier

  // ---- The order of the edits does not change the sums ----

  lemma {:induction false} InsertCounts(e: Edit, sorted: seq<Edit>)
    requires ValidRange(e) && forall f | f in sorted :: ValidRange(f)
    ensures (forall f | f in InsertEdit(e, sorted) :: ValidRange(f))
    ensures LinesChanged(InsertEdit(e, sorted)) == EditLines(e) + LinesChanged(sorted)
    decreases |sorted|
  {
    if sorted != [] && e.lineStart < sorted[0].lineStart {
      InsertCounts(e, sorted[1..]);
      assert InsertEdit(e, sorted)[1..] == InsertEdit(e, sorted[1..]);
    } else {
      assert ([e] + sorted)[1..] == sorted;
    }
  }

  lemma {:induction false} SortCounts(edits: seq<Edit>)
    requires forall e | e in edits :: ValidRange(e)
    ensures (forall e | e in SortEdits(edits) :: ValidRange(e)) && LinesChanged(SortEdits(edits)) == LinesChanged(edits)
  {
    if edits != [] {
      SortCounts(edits[1..]);
      InsertCounts(edits[0], SortEdits(edits[1..]));
    }
  }

  // ---- How many lines remain ----

  function Brought(edits: seq<Edit>): nat {
    if edits == [] then 0 else |NewLines(edits[0])| + Brought(edits[1..])
  }

  /** How many lines an edit replaces in a file of `length` lines. */
  function Taken(e: Edit, length: int): int {
    Min(e.lineEnd, length) - e.lineStart + 1
  }

  /** How many lines edits take when each meets the length its predecessors leave. */
  function TakenInTurn(sorted: seq<Edit>, length: int): int {
    if sorted == [] then 0
    else
      var e := sorted[0];
      Taken(e, length) + TakenInTurn(sorted[1..], length - Taken(e, length) + |NewLines(e)|)
  }

  lemma {:induction false} InTurnLength(lines: seq<string>, sorted: seq<Edit>)
    requires AllLines(lines) && ApplyInTurn(lines, sorted).Ok?
    ensures AllLines(ApplyInTurn(lines, sorted).value)
    ensures |ApplyInTurn(lines, sorted).value| == |lines| + Brought(sorted) - TakenInTurn(sorted, |lines|)
    ensures TakenInTurn(sorted, |lines|) >= 0
    decreases |sorted|
  {
    if sorted != [] {
      var next := Splice(lines, sorted[0]);
      forall l | l in next ensures Line(l) {
        assert l in lines || l in NewLines(sorted[0]);
      }
      InTurnLength(next, sorted[1..]);
    }
  }

  lemma {:induction false} InsertBrings(e: Edit, sorted: seq<Edit>)
    ensures Brought(InsertEdit(e, sorted)) == |NewLines(e)| + Brought(sorted)
    decreases |sorted|
  {
    if sorted != [] && e.lineStart < sorted[0].lineStart {
      InsertBrings(e, sorted[1..]);
      assert InsertEdit(e, sorted)[1..] == InsertEdit(e, sorted[1..]);
    } else {
      assert ([e] + sorted)[1..] == sorted;
    }
  }

  lemma {:induction false} SortBrings(edits: seq<Edit>)
    ensures Brought(SortEdits(edits)) == Brought(edits)
  {
    if edits != [] {
      SortBrings(edits[1..]);
      InsertBrings(edits[0], SortEdits(edits[1..]));
    }
  }

  lemma {:induction false} AppliedAreValid(content: string, edits: seq<Edit>)
    requires Edited(content, edits).Ok?
    ensures AllValid(edits)
  {
    SortEditsKeeps(edits);
    SameMembers(edits, SortEdits(edits));
    if e :| e in SortEdits(edits) && !ValidRange(e) {
      InvalidFails(Split(content), SortEdits(edits), e);
    }
  }

  /** Any edits that apply: what was there, less what they take, plus what they bring, but never no line at all. */
  lemma {:induction false} LineCountExactly(content: string, edits: seq<Edit>)
    requires Edited(content, edits).Ok?
    ensures var n := |Split(content)|;
            var left := n - TakenInTurn(SortEdits(edits), n) + Brought(edits);
            0 <= left && |Split(Edited(content, edits).value)| == if left == 0 then 1 else left
  {
    var sorted := SortEdits(edits);
    InTurnLength(Split(content), sorted);
    SortBrings(edits);
    var lines := ApplyInTurn(Split(content), sorted).value;
    if lines == [] {
      assert Split(Join(lines)) == [""];
    } else {
      SplitJoin(lines);
    }
  }

  // ---- The bound on one file ----

  function Difference(m: nat, n: nat): nat {
    if m < n then n - m else m - n
  }

  /** What is taken is made up by the lines reported and brought; an erased file keeps one empty line. */
  predicate Accounted(edits: seq<Edit>, length: nat)
    requires AllValid(edits)
  {
    var taken := TakenInTurn(SortEdits(edits), length);
    taken <= LinesChanged(edits) + Brought(edits) + if taken == length + Brought(edits) then 1 else 0
  }

  lemma {:induction false} BroughtAreCounted(edits: seq<Edit>)
    requires AllValid(edits)
    ensures Brought(edits) <= LinesChanged(edits)
  {
    if edits != [] {
      BroughtAreCounted(edits[1..]);
    }
  }

  /**
   * For any edits that apply, a file's line count changes by at most its `lines_changed` exactly when they
   * are accounted for.
   */
  lemma {:induction false} BoundedExactly(content: string, edits: seq<Edit>)
    requires Edited(content, edits).Ok?
    ensures AllValid(edits)
    ensures Difference(|Split(Edited(content, edits).value)|, |Split(content)|) <= LinesChanged(edits)
            <==> Accounted(edits, |Split(content)|)
  {
    AppliedAreValid(content, edits);
    LineCountExactly(content, edits);
    BroughtAreCounted(edits);
    InTurnLength(Split(content), SortEdits(edits));
  }

  /** Only sentinel edits can take more than is counted for them. */
  lemma {:induction false} OrdinaryAreCounted(sorted: seq<Edit>, length: int)
    requires forall e | e in sorted :: ValidRange(e) && e.lineEnd < WHOLE_FILE
    ensures TakenInTurn(sorted, length) <= LinesChanged(sorted)
  {
    if sorted != [] {
      var e := sorted[0];
      OrdinaryAreCounted(sorted[1..], length - Taken(e, length) + |NewLines(e)|);
    }
  }

  lemma {:induction false} OrdinaryAreAccounted(edits: seq<Edit>, length: nat)
    requires forall e | e in edits :: ValidRange(e) && e.lineEnd < WHOLE_FILE
    ensures Accounted(edits, length)
  {
    SortEditsKeeps(edits);
    SameMembers(edits, SortEdits(edits));
    SortCounts(edits);
    OrdinaryAreCounted(SortEdits(edits), length);
  }

  /** Unless the whole-file sentinel is used, a file's line count changes by at most its `lines_changed`. */
  lemma {:induction false} LineCountBounded(content: string, edits: seq<Edit>)
    requires Edited(content, edits).Ok? && forall e | e in edits :: ValidRange(e) && e.lineEnd < WHOLE_FILE
    ensures Difference(|Split(Edited(content, edits).value)|, |Split(content)|) <= LinesChanged(edits)
  {
    BoundedExactly(content, edits);
    OrdinaryAreAccounted(edits, |Split(content)|);
  }

  /** With the sentinel the bound can fail: three lines become one and one changed line is reported. */
  lemma SentinelExceedsBound()
    ensures var content, edits := "a\nb\nc", [Edit(1, WHOLE_FILE, "x")];
            Edited(content, edits) == Ok("x") && LinesChanged(edits) == 1 && |Split(content)| == 3 && |Split("x")| == 1
  {
    var content, e := "a\nb\nc", Edit(1, WHOLE_FILE, "x");
    assert content == "a" + "\n" + ("b" + "\n" + "c");
    SplitFirst("a", "b" + "\n" + "c");
    SplitFirst("b", "c");
    SplitLine("c");
    SplitLine("x");
    assert SortEdits([e]) == [e];
    assert ApplyInTurn(Split(content), [e]) == ApplyInTurn(Splice(Split(content), e), []);
    assert Splice(Split(content), e) == ["x"];
  }

  /** What a sentinel edit must bring to be accounted for: half the lines it replaces, or a one-line file. */
  predicate SentinelCovered(edits: seq<Edit>, length: nat) {
    forall e | e in edits && e.lineEnd >= WHOLE_FILE :: length <= 2 * |NewLines(e)| || length == 1
  }

  /** A sentinel edit that fits a shorter file leaves no room for another disjoint edit. */
  lemma {:induction false} SentinelAlone(edits: seq<Edit>, length: nat, i: nat)
    requires Disjoint(edits) && 0 < length < WHOLE_FILE && forall e | e in edits :: Fits(e, length)
    requires i < |edits| && edits[i].lineEnd >= WHOLE_FILE
    ensures edits == [edits[i]] && edits[i].lineStart == 1
  {
    assert Fits(edits[i], length);
    var j := if i == 0 then |edits| - 1 else 0;
    assert Fits(edits[j], length);
    assert j == i;
  }

  /**
   * Disjoint edits that fit a file shorter than the sentinel: accounted for exactly when a sentinel edit is
   * covered.
   */
  lemma {:induction false} CoveredExactly(edits: seq<Edit>, length: nat)
    requires Disjoint(edits) && 0 < length < WHOLE_FILE && forall e | e in edits :: Fits(e, length)
    ensures AllValid(edits)
    ensures Accounted(edits, length) <==> SentinelCovered(edits, length)
  {
    if i :| 0 <= i < |edits| && edits[i].lineEnd >= WHOLE_FILE {
      SentinelAlone(edits, length, i);
      var e := edits[i];
      assert SortEdits([e]) == [e] && [e][1..] == [];
      assert Taken(e, length) == length && TakenInTurn([e], length) == length;
      assert Brought([e]) == LinesChanged([e]) == |NewLines(e)|;
    } else {
      OrdinaryAreAccounted(edits, length);
    }
  }

  /** Nothing is counted exactly when every edit erases to the sentinel. */
  lemma {:induction false} UncountedExactly(edits: seq<Edit>)
    requires forall e | e in edits :: ValidRange(e)
    ensures LinesChanged(edits) == 0 <==> forall e | e in edits :: e.lineEnd >= WHOLE_FILE && e.newContent == ""
  {
    if edits != [] {
      UncountedExactly(edits[1..]);
      assert edits == [edits[0]] + edits[1..];
    }
  }

  // ---- Whole artifacts ----

  lemma {:induction false} SummaryCounts(artifact: seq<FileEdits>, f: FileEdits)
    requires Summary(artifact).Ok? && f in artifact
    ensures AllValid(f.edits)
    ensures exists c | c in Summary(artifact).value :: c.path == f.path && c.linesChanged == LinesChanged(f.edits)
  {
    if f == artifact[0] {
      assert Summary(artifact).value[0] == Changed(f).value;
    } else {
      assert artifact == [artifact[0]] + artifact[1..];
      SummaryCounts(artifact[1..], f);
      assert Summary(artifact).value[1..] == Summary(artifact[1..]).value;
    }
  }

  /** The line-count change of a file that ends as `now`, against what the summary reports for the deciding entry. */
  ghost predicate Reported(summary: seq<ChangedFile>, entry: FileEdits, was: string, now: string)
    requires AllValid(entry.edits)
  {
    exists c | c in summary ::
      && c.path == entry.path
      && c.linesChanged == LinesChanged(entry.edits)
      && (Difference(|Split(now)|, |Split(was)|) <= c.linesChanged <==> Accounted(entry.edits, |Split(was)|))
  }

  /**
   * Whatever its edits, an artifact that was read and applied leaves a file no entry names unchanged, and
   * changes the line count of any other by at most what the summary reports for its last entry if and only
   * if that entry's edits are accounted for: always without the sentinel, and with it, for disjoint edits
   * and a file shorter than the sentinel, exactly when the sentinel edit is covered.
   */
  lemma {:induction false} ChangeIsAccounted(files: seq<SourceFile>, artifact: seq<FileEdits>, i: nat)
    requires Summary(artifact).Ok? && Applied(files, artifact).Ok? && i < |Applied(files, artifact).value|
    ensures var file := Applied(files, artifact).value[i];
            && file.path in Contents(files)
            && var was := Contents(files)[file.path];
               match LastEntryFor(artifact, file.path)
               case None => file.content == was
               case Some(entry) =>
                 var length := |Split(was)|;
                 && AllValid(entry.edits)
                 && Reported(Summary(artifact).value, entry, was, file.content)
                 && ((forall e | e in entry.edits :: e.lineEnd < WHOLE_FILE) ==> Accounted(entry.edits, length))
                 && (Disjoint(entry.edits) && length < WHOLE_FILE ==>
                       (Accounted(entry.edits, length) <==> SentinelCovered(entry.edits, length)))
  {
    var contents := ApplyEntries(Contents(files), Contents(files), artifact).value;
    ListedLength(Paths(files), contents);
    ListedAt(Paths(files), contents, i);
    var path := Paths(files)[i];
    LastEntryDecides(Contents(files), Contents(files), artifact, path);
    var last := LastEntryFor(artifact, path);
    if last.Some? {
      EntryIsAccounted(artifact, last.value, Contents(files)[path]);
    }
  }

  lemma {:induction false} EntryIsAccounted(artifact: seq<FileEdits>, entry: FileEdits, was: string)
    requires Summary(artifact).Ok? && entry in artifact && Edited(was, entry.edits).Ok?
    ensures AllValid(entry.edits)
    ensures Reported(Summary(artifact).value, entry, was, Edited(was, entry.edits).value)
    ensures var length := |Split(was)|;
            && ((forall e | e in entry.edits :: e.lineEnd < WHOLE_FILE) ==> Accounted(entry.edits, length))
            && (Disjoint(entry.edits) && length < WHOLE_FILE ==>
                  (Accounted(entry.edits, length) <==> SentinelCovered(entry.edits, length)))
  {
    var length := |Split(was)|;
    SummaryCounts(artifact, entry);
    BoundedExactly(was, entry.edits);
    if forall e | e in entry.edits :: e.lineEnd < WHOLE_FILE {
      OrdinaryAreAccounted(entry.edits, length);
    }
    if Disjoint(entry.edits) && length < WHOLE_FILE {
      SimultaneousSubstitution(Split(was), entry.edits);
      CoveredExactly(entry.edits, length);
    }
  }
}
