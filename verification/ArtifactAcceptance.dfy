/** When the range check of the splicing loop accepts edits, overlapping or not, and when it agrees with the file. */
module ArtifactAcceptance {
  import opened Wrappers
  import opened Collections
  import opened ArtifactApplier

  function Max(a: int, b: int): int { if a < b then b else a }

  // ---- The length the check sees ----

  /** How many lines an edit adds to a file that has all the lines of its range. */
  function Gain(e: Edit): int {
    |NewLines(e)| - (e.lineEnd - e.lineStart + 1)
  }

  function Gains(edits: seq<Edit>): int {
    if edits == [] then 0 else Gain(edits[0]) + Gains(edits[1..])
  }

  /** The fewest lines that let sorted edits pass: each is checked against the length its predecessors leave. */
  function LinesNeeded(sorted: seq<Edit>): int {
    if sorted == [] || sorted[0].lineStart == 1 then 0
    else Max(sorted[0].lineEnd, LinesNeeded(sorted[1..]) - Gain(sorted[0]))
  }

  lemma {:induction false} InTurnAccepted(lines: seq<string>, sorted: seq<Edit>)
    requires Descending(sorted)
    ensures ApplyInTurn(lines, sorted).Ok? <==> AllValid(sorted) && LinesNeeded(sorted) <= |lines|
    decreases |sorted|
  {
    if sorted != [] {
      assert sorted == [sorted[0]] + sorted[1..];
      if Fits(sorted[0], |lines|) {
        InTurnAccepted(Splice(lines, sorted[0]), sorted[1..]);
      }
    }
  }

  lemma {:induction false} NeededExactly(sorted: seq<Edit>, length: nat)
    requires Descending(sorted) && AllValid(sorted)
    ensures LinesNeeded(sorted) <= length
            <==> forall k | 0 <= k < |sorted| && sorted[k].lineStart != 1 ::
                   sorted[k].lineEnd <= length + Gains(sorted[..k])
  {
    if sorted == [] {
    } else if sorted[0].lineStart == 1 {
      forall k | 0 <= k < |sorted| ensures sorted[k].lineStart == 1 {
        FirstStartsLast(sorted, k);
        assert ValidRange(sorted[k]);
      }
    } else if length < sorted[0].lineEnd {
      assert length + Gains(sorted[..0]) < sorted[0].lineEnd;
    } else {
      var e, rest := sorted[0], sorted[1..];
      assert ValidRange(e);
      NeededExactly(rest, length + Gain(e));
      forall k | 0 <= k < |rest| ensures length + Gains(sorted[..k + 1]) == length + Gain(e) + Gains(rest[..k]) {
        assert sorted[..k + 1][1..] == rest[..k];
      }
      assert forall k | 0 <= k < |rest| :: rest[k] == sorted[k + 1];
      assert Gains(sorted[..0]) == 0;
      assert forall k | 1 <= k < |sorted| :: sorted[k] == rest[k - 1];
    }
  }

  /**
   * Any edits, overlapping or not, are accepted exactly when every range is valid and each edit that does not
   * start at line one ends within the file as the edits applied before it have left it.
   */
  lemma {:induction false} AcceptedExactly(lines: seq<string>, edits: seq<Edit>)
    ensures ApplyInTurn(lines, SortEdits(edits)).Ok?
            <==> AllValid(edits) && LinesNeeded(SortEdits(edits)) <= |lines|
    ensures var sorted := SortEdits(edits);
            ApplyInTurn(lines, sorted).Ok?
            <==> AllValid(edits) && forall k | 0 <= k < |sorted| && sorted[k].lineStart != 1 ::
                   sorted[k].lineEnd <= |lines| + Gains(sorted[..k])
  {
    var sorted := SortEdits(edits);
    SortEditsSorts(edits);
    SortEditsKeeps(edits);
    SameMembers(edits, sorted);
    InTurnAccepted(lines, sorted);
    if AllValid(sorted) {
      NeededExactly(sorted, |lines|);
    }
  }

  // ---- Agreement with the original file's length ----

  /** The last line named by an edit that is not clamped. */
  function LastLine(edits: seq<Edit>): int {
    if edits == [] then 0
    else if edits[0].lineStart == 1 then LastLine(edits[1..])
    else Max(edits[0].lineEnd, LastLine(edits[1..]))
  }

  lemma {:induction false} FitExactly(edits: seq<Edit>, length: nat)
    ensures (forall e | e in edits :: Fits(e, length)) <==> AllValid(edits) && LastLine(edits) <= length
  {
    if edits != [] {
      FitExactly(edits[1..], length);
      assert edits == [edits[0]] + edits[1..];
      assert AllValid(edits) <==> ValidRange(edits[0]) && AllValid(edits[1..]);
      assert (forall e | e in edits :: Fits(e, length))
        <==> Fits(edits[0], length) && forall e | e in edits[1..] :: Fits(e, length);
    }
  }

  /**
   * The check agrees with the original file's length unless that lies between the lines needed and the last
   * line named: with the former below it an edit past the end is applied, with the latter below it edits
   * within the file are refused.
   */
  lemma {:induction false} AgreesExactly(lines: seq<string>, edits: seq<Edit>)
    ensures var accepted := ApplyInTurn(lines, SortEdits(edits)).Ok?;
            var fit := forall e | e in edits :: Fits(e, |lines|);
            var needed, last := LinesNeeded(SortEdits(edits)), LastLine(edits);
            && (accepted && !fit <==> AllValid(edits) && needed <= |lines| < last)
            && (fit && !accepted <==> AllValid(edits) && last <= |lines| < needed)
            && ((accepted <==> fit) <==> !AllValid(edits) || !(Min(needed, last) <= |lines| < Max(needed, last)))
  {
    AcceptedExactly(lines, edits);
    FitExactly(edits, |lines|);
  }

  /** Disjoint edits never come between: no file is long enough for one of the two and too short for the other. */
  lemma {:induction false} DisjointAgrees(lines: seq<string>, edits: seq<Edit>)
    requires lines != [] && Disjoint(edits) && AllValid(edits)
    ensures LinesNeeded(SortEdits(edits)) <= |lines| <==> LastLine(edits) <= |lines|
  {
    AgreesExactly(lines, edits);
    SimultaneousSubstitution(lines, edits);
  }

  /** An edit past the end of the file is applied to lines an overlapping edit has added. */
  lemma OverlapEscapesRangeCheck()
    ensures var lines, edits := ["a", "b"], [Edit(2, 2, "x\ny"), Edit(2, 3, "w")];
            LastLine(edits) == 3 && ApplyInTurn(lines, SortEdits(edits)) == Ok(["a", "w"])
  {
    var first, second := Edit(2, 2, "x\ny"), Edit(2, 3, "w");
    assert SortEdits([second]) == [second] && SortEdits([first, second]) == [first, second];
    assert "x\ny" == "x" + "\n" + "y";
    SplitFirst("x", "y");
    SplitLine("y");
    SplitLine("w");
    assert Splice(["a", "b"], first) == ["a", "x", "y"];
    assert Splice(["a", "x", "y"], second) == ["a", "w"];
    assert ApplyInTurn(["a", "x", "y"], [second]) == Ok(["a", "w"]);
  }

  /** An edit within the file is refused once an overlapping edit has removed its lines. */
  lemma OverlapRefusesFittingEdit()
    ensures var lines, edits := ["a", "b"], [Edit(2, 2, ""), Edit(2, 2, "w")];
            LastLine(edits) == 2 && ApplyInTurn(lines, SortEdits(edits)) == Err(ExceedsLength(2, 1))
  {
    var first, second := Edit(2, 2, ""), Edit(2, 2, "w");
    assert [first, second][1..] == [second];
    assert SortEdits([second]) == [second];
    assert SortEdits([first, second]) == [first, second];
    assert Splice(["a", "b"], first) == ["a"];
  }

  // ---- Whole artifacts ----

  predicate Acceptable(contents: map<string, string>, entry: FileEdits) {
    && entry.path in contents
    && entry.edits != []
    && AllValid(entry.edits)
    && LinesNeeded(SortEdits(entry.edits)) <= |Split(contents[entry.path])|
  }

  lemma {:induction false} EntriesAccepted(original: map<string, string>, current: map<string, string>,
                                           artifact: seq<FileEdits>)
    ensures ApplyEntries(original, current, artifact).Ok? <==> forall f | f in artifact :: Acceptable(original, f)
    decreases |artifact|
  {
    if artifact != [] {
      var entry := artifact[0];
      assert artifact == [entry] + artifact[1..];
      if entry.path in original {
        AcceptedExactly(Split(original[entry.path]), entry.edits);
      }
      var content := ApplyEntry(original, entry);
      assert content.Ok? <==> Acceptable(original, entry);
      if content.Ok? {
        EntriesAccepted(original, current[entry.path := content.value], artifact[1..]);
      }
    }
  }

  /**
   * Whatever edits an artifact holds, it is applied exactly when it has entries, each names a file of the
   * snapshot and has valid edits, and no file has fewer lines than its entries need.
   */
  lemma {:induction false} ArtifactAccepted(files: seq<SourceFile>, artifact: seq<FileEdits>)
    ensures Applied(files, artifact).Ok?
            <==> artifact != [] && forall f | f in artifact :: Acceptable(Contents(files), f)
  {
    EntriesAccepted(Contents(files), Contents(files), artifact);
  }

  /** An artifact that was read leaves two things to fail: a file that is not there or one that is too short. */
  lemma {:induction false} ReadArtifactAccepted(files: seq<SourceFile>, artifact: seq<FileEdits>)
    requires artifact != [] && Summary(artifact).Ok?
    ensures var contents := Contents(files);
            Applied(files, artifact).Ok?
            <==> forall f | f in artifact ::
                   f.path in contents && LinesNeeded(SortEdits(f.edits)) <= |Split(contents[f.path])|
  {
    ArtifactAccepted(files, artifact);
    forall f | f in artifact ensures f.edits != [] && AllValid(f.edits) {
      ReadEntriesAreValid(artifact, f);
    }
  }

  lemma {:induction false} ReadEntriesAreValid(artifact: seq<FileEdits>, f: FileEdits)
    requires Summary(artifact).Ok? && f in artifact
    ensures f.edits != [] && AllValid(f.edits)
  {
    if f != artifact[0] {
      assert artifact == [artifact[0]] + artifact[1..];
      ReadEntriesAreValid(artifact[1..], f);
    }
  }
}
