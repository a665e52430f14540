/** What applying a patch does to the text of a file, and to the list of files. */
module PatchText {
  import opened Wrappers
  import opened Collections
  import opened ArtifactApplier

  // ---- Text of lines ----

  lemma {:induction false} JoinConcat(a: seq<string>, b: seq<string>)
    requires a != [] && b != []
    ensures Join(a + b) == Join(a) + "\n" + Join(b)
  {
    if |a| == 1 {
      assert (a + b)[1..] == b;
    } else {
      assert (a + b)[1..] == a[1..] + b;
      JoinConcat(a[1..], b);
      assert a[0] + "\n" + (Join(a[1..]) + "\n" + Join(b)) == a[0] + "\n" + Join(a[1..]) + "\n" + Join(b);
    }
  }

  /** The new lines of an edit are those of its new content. */
  lemma {:induction false} NewLinesAreContent(e: Edit)
    ensures e.newContent == "" ==> NewLines(e) == []
    ensures e.newContent != "" ==> NewLines(e) != [] && Join(NewLines(e)) == e.newContent
  {
    JoinSplit(e.newContent);
  }

  /** A stretch of lines may be written as one piece holding its text. */
  lemma {:induction false} JoinWithPiece(a: seq<string>, lines: seq<string>, b: seq<string>)
    requires lines != []
    ensures Join(a + lines + b) == Join(a + [Join(lines)] + b)
  {
    var piece := [Join(lines)];
    assert Join(piece) == Join(lines);
    if a != [] {
      JoinConcat(a, lines);
      JoinConcat(a, piece);
    } else {
      assert a + lines == lines && a + piece == piece;
    }
    assert Join(a + lines) == Join(a + piece);
    if b != [] {
      JoinConcat(a + lines, b);
      JoinConcat(a + piece, b);
    } else {
      assert a + lines + b == a + lines && a + piece + b == a + piece;
    }
  }

  /** The new content of an edit as a piece of the text; erasing leaves no piece. */
  function Piece(e: Edit): seq<string> {
    if e.newContent == "" then [] else [e.newContent]
  }

  lemma {:induction false} JoinPiece(a: seq<string>, e: Edit, b: seq<string>)
    ensures Join(a + NewLines(e) + b) == Join(a + Piece(e) + b)
  {
    NewLinesAreContent(e);
    if e.newContent != "" { JoinWithPiece(a, NewLines(e), b); }
  }

  // ---- One edit ----

  /** One edit that fits: the lines before its range, the new content verbatim, the lines after. */
  lemma {:induction false} OneEditText(content: string, e: Edit)
    requires Fits(e, |Split(content)|)
    ensures var lines := Split(content);
            Edited(content, [e]) == Ok(Join(lines[..e.lineStart - 1] + Piece(e) + lines[Min(e.lineEnd, |lines|)..]))
  {
    var lines := Split(content);
    assert SortEdits([e]) == [e] && [e][1..] == [];
    assert ApplyInTurn(lines, [e]) == ApplyInTurn(Splice(lines, e), []);
    JoinPiece(lines[..e.lineStart - 1], e, lines[Min(e.lineEnd, |lines|)..]);
  }

  // ---- Disjoint edits ----

  /** The pieces of the text from line index `k` on: where an edit starts its content, elsewhere the line itself. */
  ghost function Pieces(lines: seq<string>, edits: seq<Edit>, k: nat): seq<string>
    requires k <= |lines| && AllValid(edits)
    decreases |lines| - k
  {
    if k == |lines| then []
    else if exists e :: e in edits && e.lineStart == k + 1 then
      var e :| e in edits && e.lineStart == k + 1;
      assert ValidRange(e);
      Piece(e) + Pieces(lines, edits, Min(e.lineEnd, |lines|))
    else [lines[k]] + Pieces(lines, edits, k + 1)
  }

  lemma {:induction false} OneStart(edits: seq<Edit>, line: int, e: Edit)
    requires Disjoint(edits) && AllValid(edits) && e in edits && e.lineStart == line
    ensures StartingAt(edits, line) == Some(e)
  {
    var f := StartingAt(edits, line).value;
    var i :| 0 <= i < |edits| && edits[i] == e;
    var j :| 0 <= j < |edits| && edits[j] == f;
    assert ValidRange(e) && ValidRange(f);
    assert !Apart(e, f) && !Apart(f, e);
    assert i == j;
  }

  lemma {:induction false} PiecesJoin(before: seq<string>, lines: seq<string>, edits: seq<Edit>, k: nat)
    requires k <= |lines| && AllValid(edits) && Disjoint(edits)
    ensures Join(before + Substituted(lines, edits, k)) == Join(before + Pieces(lines, edits, k))
    decreases |lines| - k
  {
    if k < |lines| {
      if exists e :: e in edits && e.lineStart == k + 1 {
        var e :| e in edits && e.lineStart == k + 1;
        OneStart(edits, k + 1, e);
        var next := Min(e.lineEnd, |lines|);
        assert ValidRange(e);
        PiecesJoin(before + NewLines(e), lines, edits, next);
        JoinPiece(before, e, Pieces(lines, edits, next));
        Regroup(before, NewLines(e), Substituted(lines, edits, next));
        PiecesStep(lines, edits, k, e);
        Regroup(before, Piece(e), Pieces(lines, edits, next));
      } else {
        PiecesJoin(before + [lines[k]], lines, edits, k + 1);
        Regroup(before, [lines[k]], Substituted(lines, edits, k + 1));
        Regroup(before, [lines[k]], Pieces(lines, edits, k + 1));
      }
    }
  }

  lemma {:induction false} PiecesStep(lines: seq<string>, edits: seq<Edit>, k: nat, e: Edit)
    requires k < |lines| && AllValid(edits) && Disjoint(edits) && e in edits && e.lineStart == k + 1
    ensures ValidRange(e) && Pieces(lines, edits, k) == Piece(e) + Pieces(lines, edits, Min(e.lineEnd, |lines|))
  {
    assert ValidRange(e);
    forall f | f in edits && f.lineStart == k + 1 ensures f == e {
      OneStart(edits, k + 1, e);
      OneStart(edits, k + 1, f);
    }
  }

  /** Disjoint edits that fit: the text with every range replaced by the new content verbatim, the rest kept. */
  lemma {:induction false} DisjointEditsText(content: string, edits: seq<Edit>)
    requires Disjoint(edits) && forall e | e in edits :: Fits(e, |Split(content)|)
    ensures AllValid(edits) && Edited(content, edits) == Ok(Join(Pieces(Split(content), edits, 0)))
  {
    var lines := Split(content);
    SimultaneousSubstitution(lines, edits);
    PiecesJoin([], lines, edits, 0);
    assert [] + Substituted(lines, edits, 0) == Substituted(lines, edits, 0);
    assert [] + Pieces(lines, edits, 0) == Pieces(lines, edits, 0);
  }

  // ---- Order of application ----

  function AtLine(edits: seq<Edit>, line: int): seq<Edit> {
    if edits == [] then [] else (if edits[0].lineStart == line then [edits[0]] else []) + AtLine(edits[1..], line)
  }

  lemma {:induction false} InsertKeepsTies(e: Edit, sorted: seq<Edit>, line: int)
    requires Descending(sorted)
    ensures AtLine(InsertEdit(e, sorted), line) == (if e.lineStart == line then [e] else []) + AtLine(sorted, line)
  {
    if sorted != [] && InsertEdit(e, sorted)[0] != e {
      InsertKeepsTies(e, sorted[1..], line);
      var rest := AtLine(sorted[1..], line);
      assert sorted[0].lineStart != e.lineStart;
      assert e.lineStart == line ==> [] + ([e] + rest) == [e] + ([] + rest);
    }
  }

  /** Edits that start at one line are applied in the order in which they are listed. */
  lemma {:induction false} TiesKeepOrder(edits: seq<Edit>, line: int)
    ensures AtLine(SortEdits(edits), line) == AtLine(edits, line)
  {
    if edits != [] {
      TiesKeepOrder(edits[1..], line);
      SortEditsSorts(edits[1..]);
      InsertKeepsTies(edits[0], SortEdits(edits[1..]), line);
    }
  }

  // ---- Errors ----

  /** A failure is that of the first edit, in the order of application, that cannot be applied to what is there. */
  lemma {:induction false} FirstFailureReported(lines: seq<string>, edits: seq<Edit>) returns (k: nat)
    requires ApplyInTurn(lines, edits).Err?
    ensures k < |edits| && ApplyInTurn(lines, edits[..k]).Ok?
    ensures var e, length := edits[k], |ApplyInTurn(lines, edits[..k]).value|;
            ApplyInTurn(lines, edits).error ==
            if e.lineStart < 1 || e.lineEnd < e.lineStart then InvalidRange(e.lineStart, e.lineEnd)
            else ExceedsLength(e.lineEnd, length)
    ensures var e, length := edits[k], |ApplyInTurn(lines, edits[..k]).value|;
            e.lineStart < 1 || e.lineEnd < e.lineStart || (e.lineEnd > length && e.lineStart != 1)
    decreases |edits|
  {
    var first := ApplyEdit(lines, edits[0]);
    if first.Err? {
      k := 0;
      assert edits[..0] == [];
    } else {
      var rest := FirstFailureReported(first.value, edits[1..]);
      k := rest + 1;
      assert edits[..k][0] == edits[0] && edits[..k][1..] == edits[1..][..rest];
    }
  }

  // ---- The file list ----

  /** A path listed more than once has its last content and its first place. */
  lemma {:induction false} LastContentCounts(files: seq<SourceFile>, i: nat)
    requires i < |files| && forall k | i < k < |files| :: files[k].path != files[i].path
    ensures Contents(files)[files[i].path] == files[i].content
  {
    var n := |files| - 1;
    if i < n {
      LastContentCounts(files[..n], i);
    }
  }

  lemma {:induction false} OnlyListedPaths(files: seq<SourceFile>, path: string)
    ensures path in Contents(files) <==> exists f :: f in files && f.path == path
    ensures path in Paths(files) <==> exists f :: f in files && f.path == path
    ensures Distinct(Paths(files))
  {
    if files != [] {
      var n := |files| - 1;
      OnlyListedPaths(files[..n], path);
      OnlyListedPaths(files[..n], files[n].path);
      assert files == files[..n] + [files[n]];
    }
  }

  /** Paths come in the order in which each is first listed. */
  lemma {:induction false} FirstPlacesOrdered(files: seq<SourceFile>, i: nat, j: nat)
    requires i < j < |files|
    requires forall k | 0 <= k < j :: files[k].path != files[j].path
    ensures exists a, b :: 0 <= a < b < |Paths(files)| && Paths(files)[a] == files[i].path
                           && Paths(files)[b] == files[j].path
  {
    var n := |files| - 1;
    var front := Paths(files[..n]);
    if j == n {
      OnlyListedPaths(files[..n], files[n].path);
      OnlyListedPaths(files[..n], files[i].path);
      assert files[..n][i] == files[i];
      var a :| 0 <= a < |front| && front[a] == files[i].path;
      assert Paths(files) == front + [files[n].path];
      assert Paths(files)[a] == files[i].path && Paths(files)[|front|] == files[j].path;
    } else {
      FirstPlacesOrdered(files[..n], i, j);
      var a, b :| 0 <= a < b < |front| && front[a] == files[i].path && front[b] == files[j].path;
      assert Paths(files)[a] == front[a] && Paths(files)[b] == front[b];
    }
  }

  // ---- The summary ----

  function Breaks(s: string): nat {
    if s == "" then 0 else (if s[0] == '\n' then 1 else 0) + Breaks(s[1..])
  }

  lemma {:induction false} LinesAreBreaks(s: string)
    ensures |Split(s)| == Breaks(s) + 1
  {
    if s != "" { LinesAreBreaks(s[1..]); }
  }

  /**
   * What is counted for an edit: the larger of the lines named and the lines brought, or these alone with
   * the sentinel.
   */
  lemma {:induction false} CountOfEdit(e: Edit)
    requires ValidRange(e)
    ensures var brought := if e.newContent == "" then 0 else Breaks(e.newContent) + 1;
            var named := e.lineEnd - e.lineStart + 1;
            EditLines(e) == if e.lineEnd >= 999999 || named < brought then brought else named
  {
    LinesAreBreaks(e.newContent);
  }

  /** Reading an artifact gives one summary per entry, in order, or the error of the first bad entry. */
  lemma {:induction false} SummaryExactly(artifact: seq<FileEdits>)
    ensures match Summary(artifact)
            case Ok(changed) =>
              && |changed| == |artifact|
              && forall i | 0 <= i < |artifact| ::
                   && artifact[i].path != "" && artifact[i].edits != [] && AllValid(artifact[i].edits)
                   && changed[i].path == artifact[i].path
                   && changed[i].linesChanged == LinesChanged(artifact[i].edits)
                   && changed[i].changeType == if artifact[i].changeType != "" then artifact[i].changeType else "modify"
            case Err(error) =>
              exists i :: 0 <= i < |artifact| && Changed(artifact[i]) == Err(error)
                          && forall k | 0 <= k < i :: Changed(artifact[k]).Ok?
  {
    if artifact != [] {
      var rest := artifact[1..];
      SummaryExactly(rest);
      if Changed(artifact[0]).Ok? && Summary(rest).Err? {
        var i :| 0 <= i < |rest| && Changed(rest[i]) == Err(Summary(rest).error)
                 && forall k | 0 <= k < i :: Changed(rest[k]).Ok?;
        assert artifact[i + 1] == rest[i] && forall k | 0 < k < i + 1 :: artifact[k] == rest[k - 1];
      } else {
        assert forall k | 0 < k < |artifact| :: artifact[k] == rest[k - 1];
      }
    }
  }
}
