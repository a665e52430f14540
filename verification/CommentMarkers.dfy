/** Comments owned through a hidden marker: the paginated search and the upsert. */
module CommentMarkers {
  import opened Collections

  // ---- Markers ----

  const MARKER_START := "<!-- gitwire:"
  const MARKER_END := " -->"

  function BuildMarker(kind: string, id: string): (m: string)
    ensures m != ""
  {
    MARKER_START + kind + ":" + id + MARKER_END
  }

  function BuildMarkedComment(kind: string, id: string, body: string): string {
    BuildMarker(kind, id) + "\n" + body
  }

  /** `s.includes(part)`. */
  predicate Includes(s: string, part: string) {
    part <= s || (s != "" && Includes(s[1..], part))
  }

  lemma {:induction false} IncludesAt(s: string, part: string)
    requires Includes(s, part)
    ensures exists i | 0 <= i <= |s| :: part <= s[i..]
  {
    if part <= s {
      assert s[0..] == s;
    } else {
      IncludesAt(s[1..], part);
      var i :| 0 <= i <= |s[1..]| && part <= s[1..][i..];
      assert s[i + 1..] == s[1..][i..];
    }
  }

  // ---- The issue's comments ----

  /** A comment without a body is one with an empty body. */
  datatype Comment = Comment(id: nat, body: string)

  function Marked(comments: seq<Comment>, marker: string): seq<Comment> {
    if comments == [] then []
    else (if Includes(comments[0].body, marker) then [comments[0]] else []) + Marked(comments[1..], marker)
  }

  lemma {:induction false} MarkedConcat(a: seq<Comment>, b: seq<Comment>, marker: string)
    ensures Marked(a + b, marker) == Marked(a, marker) + Marked(b, marker)
  {
    if a == [] {
      assert a + b == b;
      assert [] + Marked(b, marker) == Marked(b, marker);
    } else {
      assert (a + b)[1..] == a[1..] + b && (a + b)[0] == a[0];
      MarkedConcat(a[1..], b, marker);
      Regroup(if Includes(a[0].body, marker) then [a[0]] else [], Marked(a[1..], marker), Marked(b, marker));
    }
  }

  lemma {:induction false} MarkedAre(comments: seq<Comment>, marker: string, c: Comment)
    ensures c in Marked(comments, marker) <==> c in comments && Includes(c.body, marker)
  {
    if comments != [] {
      assert comments == [comments[0]] + comments[1..];
      MarkedAre(comments[1..], marker, c);
    }
  }

  lemma MarkedOne(c: Comment, marker: string)
    ensures Marked([c], marker) == if Includes(c.body, marker) then [c] else []
  {
    assert [c][1..] == [];
  }

  // ---- The search ----

  const PER_PAGE := 100

  datatype SearchResult = NotFound | Found(comment: Comment) | Ambiguous(matches: seq<Comment>)

  /** One page of the listing, from the given offset. */
  function Page(comments: seq<Comment>, offset: nat): seq<Comment>
    requires offset <= |comments|
  {
    if offset + PER_PAGE <= |comments| then comments[offset..offset + PER_PAGE] else comments[offset..]
  }

  function Settle(matches: seq<Comment>): SearchResult {
    if |matches| == 0 then NotFound else if |matches| == 1 then Found(matches[0]) else Ambiguous(matches)
  }

  /** The search from `offset` on, stopping at the first page that proves ambiguity. */
  function Search(comments: seq<Comment>, marker: string, offset: nat, matches: seq<Comment>): SearchResult
    requires offset <= |comments|
    decreases |comments| - offset
  {
    var page := Page(comments, offset);
    var found := matches + Marked(page, marker);
    if |found| >= 2 then Ambiguous(found)
    else if |page| < PER_PAGE then Settle(found)
    else Search(comments, marker, offset + PER_PAGE, found)
  }

  method ScanPage(page: seq<Comment>, marker: string, before: seq<Comment>) returns (matches: seq<Comment>)
    ensures matches == before + Marked(page, marker)
  {
    matches := before;
    for i := 0 to |page|
      invariant matches == before + Marked(page[..i], marker)
    {
      assert page[..i + 1] == page[..i] + [page[i]];
      MarkedConcat(page[..i], [page[i]], marker);
      assert Marked([page[i]], marker) == if Includes(page[i].body, marker) then [page[i]] else [];
      if Includes(page[i].body, marker) {
        matches := matches + [page[i]];
      }
    }
    assert page[..|page|] == page;
  }

  method FindCommentByMarker(comments: seq<Comment>, marker: string) returns (r: SearchResult)
    ensures r == Search(comments, marker, 0, [])
  {
    var matches: seq<Comment> := [];
    var offset := 0;
    while true
      invariant offset <= |comments|
      invariant Search(comments, marker, offset, matches) == Search(comments, marker, 0, [])
      decreases |comments| - offset
    {
      var page := Page(comments, offset);
      matches := ScanPage(page, marker, matches);
      if |matches| >= 2 {
        return Ambiguous(matches);
      }
      if |page| < PER_PAGE {
        break;
      }
      offset := offset + PER_PAGE;
    }
    return Settle(matches);
  }

  lemma {:induction false} SearchFrom(comments: seq<Comment>, marker: string, offset: nat, matches: seq<Comment>)
    requires offset <= |comments| && matches == Marked(comments[..offset], marker) && |matches| < 2
    ensures var all := Marked(comments, marker);
            var r := Search(comments, marker, offset, matches);
            if |all| < 2 then r == Settle(all) else r.Ambiguous? && 2 <= |r.matches| && r.matches <= all
    decreases |comments| - offset
  {
    var page := Page(comments, offset);
    var next := offset + |page|;
    var found := matches + Marked(page, marker);
    assert comments[..next] == comments[..offset] + page;
    MarkedConcat(comments[..offset], page, marker);
    assert comments == comments[..next] + comments[next..];
    MarkedConcat(comments[..next], comments[next..], marker);
    if |page| < PER_PAGE {
      assert comments[next..] == [];
    } else if |found| < 2 {
      SearchFrom(comments, marker, next, found);
    }
  }

  /** For a list of any length the paginated search sees what a full scan sees: none, the one, or ambiguity. */
  lemma {:induction false} SearchIsFullScan(comments: seq<Comment>, marker: string)
    ensures var all := Marked(comments, marker);
            var r := Search(comments, marker, 0, []);
            && (r.NotFound? <==> all == [])
            && (r.Found? <==> |all| == 1) && (r.Found? ==> all == [r.comment])
            && (r.Ambiguous? <==> |all| >= 2) && (r.Ambiguous? ==> r.matches <= all && |r.matches| >= 2)
  {
    SearchFrom(comments, marker, 0, []);
  }

  // ---- Posting ----

  datatype Post = Post(kind: string, id: string, body: string)

  function MarkerOf(p: Post): string { BuildMarker(p.kind, p.id) }

  function FullBody(p: Post): string { BuildMarkedComment(p.kind, p.id, p.body) }

  datatype Thread = Thread(comments: seq<Comment>, nextId: nat)

  datatype Outcome = Created(id: nat) | Updated(id: nat) | Blocked(matchCount: nat)

  function Patch(comments: seq<Comment>, id: nat, body: string): seq<Comment> {
    if comments == [] then []
    else [if comments[0].id == id then Comment(id, body) else comments[0]] + Patch(comments[1..], id, body)
  }

  function Posted(t: Thread, p: Post): (Thread, Outcome) {
    match Search(t.comments, MarkerOf(p), 0, [])
    case Ambiguous(matches) => (t, Blocked(|matches|))
    case Found(c) => (t.(comments := Patch(t.comments, c.id, FullBody(p))), Updated(c.id))
    case NotFound => (Thread(t.comments + [Comment(t.nextId, FullBody(p))], t.nextId + 1), Created(t.nextId))
  }

  /** The remote issue: it numbers new comments and edits the one with a given number. */
  class Issue {
    var comments: seq<Comment>
    var nextId: nat

    ghost function State(): Thread
      reads this
    {
      Thread(comments, nextId)
    }

    method Create(body: string) returns (id: nat)
      modifies this
      ensures id == old(nextId) && comments == old(comments) + [Comment(id, body)] && nextId == old(nextId) + 1
    {
      id := nextId;
      comments := comments + [Comment(id, body)];
      nextId := nextId + 1;
    }

    method Edit(id: nat, body: string)
      modifies `comments
      ensures comments == Patch(old(comments), id, body)
    {
      comments := Patch(comments, id, body);
    }

    method PostMarkedComment(p: Post) returns (r: Outcome)
      modifies this
      ensures (State(), r) == Posted(old(State()), p)
    {
      var existing := FindCommentByMarker(comments, MarkerOf(p));
      if existing.Ambiguous? {
        return Blocked(|existing.matches|);
      }
      if existing.Found? {
        Edit(existing.comment.id, FullBody(p));
        return Updated(existing.comment.id);
      }
      var id := Create(FullBody(p));
      return Created(id);
    }
  }
}
