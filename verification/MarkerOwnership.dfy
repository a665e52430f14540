/** Ownership of comments over whole runs of posts, and when markers keep apart. */
module MarkerOwnership {
  import opened Wrappers
  import opened Collections
  import opened CommentMarkers

  // ---- Ownership ----

  function Ids(comments: seq<Comment>): (ids: seq<nat>)
    ensures |ids| == |comments| && forall i | 0 <= i < |ids| :: ids[i] == comments[i].id
  {
    if comments == [] then [] else [comments[0].id] + Ids(comments[1..])
  }

  predicate Numbered(t: Thread) {
    Distinct(Ids(t.comments)) && forall i | 0 <= i < |t.comments| :: Ids(t.comments)[i] < t.nextId
  }

  lemma {:induction false} PatchKeepsIds(comments: seq<Comment>, id: nat, body: string)
    ensures Ids(Patch(comments, id, body)) == Ids(comments)
  {
    if comments != [] {
      PatchKeepsIds(comments[1..], id, body);
      assert Patch(comments, id, body)[1..] == Patch(comments[1..], id, body);
    }
  }

  lemma {:induction false} PostKeepsNumbering(t: Thread, p: Post)
    requires Numbered(t)
    ensures Numbered(Posted(t, p).0)
  {
    match Search(t.comments, MarkerOf(p), 0, [])
    case Found(c) => PatchKeepsIds(t.comments, c.id, FullBody(p));
    case NotFound => assert Ids(t.comments + [Comment(t.nextId, FullBody(p))]) == Ids(t.comments) + [t.nextId];
    case Ambiguous(_) =>
  }

  lemma {:induction false} PatchMisses(comments: seq<Comment>, id: nat, body: string)
    requires forall c | c in comments :: c.id != id
    ensures Patch(comments, id, body) == comments
  {
    if comments != [] {
      PatchMisses(comments[1..], id, body);
    }
  }

  lemma {:induction false} PatchOwned(comments: seq<Comment>, owned: Comment, body: string, marker: string)
    requires Distinct(Ids(comments)) && Marked(comments, marker) == [owned] && Includes(body, marker)
    ensures Marked(Patch(comments, owned.id, body), marker) == [Comment(owned.id, body)]
    decreases |comments|
  {
    var first, rest := comments[0], comments[1..];
    assert Patch(comments, owned.id, body)[1..] == Patch(rest, owned.id, body);
    if Includes(first.body, marker) {
      assert Marked(comments, marker)[0] == first && Marked(comments, marker)[1..] == Marked(rest, marker);
      PatchMisses(rest, owned.id, body);
    } else {
      assert [] + Marked(rest, marker) == Marked(rest, marker);
      assert Marked(rest, marker)[0] == owned;
      MarkedAre(rest, marker, owned);
      var i :| 0 <= i < |rest| && rest[i] == owned;
      assert comments[i + 1] == owned;
      PatchOwned(rest, owned, body, marker);
    }
  }

  lemma {:induction false} PatchElsewhere(comments: seq<Comment>, id: nat, body: string, marker: string)
    requires !Includes(body, marker) && forall c | c in comments && c.id == id :: !Includes(c.body, marker)
    ensures Marked(Patch(comments, id, body), marker) == Marked(comments, marker)
  {
    if comments != [] {
      assert Patch(comments, id, body)[1..] == Patch(comments[1..], id, body);
      PatchElsewhere(comments[1..], id, body, marker);
    }
  }

  /** Posts with another marker keep away from `marker`: neither's text includes the other's marker. */
  predicate Unrelated(p: Post, marker: string) {
    MarkerOf(p) != marker && !Includes(FullBody(p), marker)
  }

  /** At most one comment carries the marker; if one does it has this body and no other poster's marker. */
  predicate Owns(t: Thread, marker: string, body: Option<string>, others: set<string>) {
    && Numbered(t)
    && match body
       case None => Marked(t.comments, marker) == []
       case Some(b) =>
         && |Marked(t.comments, marker)| == 1
         && Marked(t.comments, marker)[0].body == b
         && forall other | other in others :: !Includes(b, other)
  }

  lemma {:induction false} OwnMarkerIncluded(p: Post)
    ensures Includes(FullBody(p), MarkerOf(p))
  {
    assert MarkerOf(p) <= MarkerOf(p) + "\n" + p.body;
  }

  lemma {:induction false} OwnPost(t: Thread, p: Post, body: Option<string>, others: set<string>)
    requires Owns(t, MarkerOf(p), body, others) && forall other | other in others :: !Includes(FullBody(p), other)
    ensures Owns(Posted(t, p).0, MarkerOf(p), Some(FullBody(p)), others)
    ensures Posted(t, p).1 == match body
                              case None => Created(t.nextId)
                              case Some(_) => Updated(Marked(t.comments, MarkerOf(p))[0].id)
  {
    var marker := MarkerOf(p);
    SearchIsFullScan(t.comments, marker);
    PostKeepsNumbering(t, p);
    OwnMarkerIncluded(p);
    if body.Some? {
      var owned := Marked(t.comments, marker)[0];
      assert Marked(t.comments, marker) == [owned];
      PatchOwned(t.comments, owned, FullBody(p), marker);
    } else {
      MarkedConcat(t.comments, [Comment(t.nextId, FullBody(p))], marker);
      assert Marked([Comment(t.nextId, FullBody(p))], marker) == [Comment(t.nextId, FullBody(p))];
    }
  }

  /** Editing a comment found under another marker leaves this marker's comments alone. */
  lemma {:induction false} EditElsewhere(comments: seq<Comment>, found: Comment, body: string, marker: string,
                                         other: string)
    requires Distinct(Ids(comments)) && found in comments && Includes(found.body, other) && !Includes(body, marker)
    requires forall c | c in Marked(comments, marker) :: !Includes(c.body, other)
    ensures Marked(Patch(comments, found.id, body), marker) == Marked(comments, marker)
  {
    forall c | c in comments && c.id == found.id ensures !Includes(c.body, marker) {
      assert c == found;
      MarkedAre(comments, marker, c);
    }
    PatchElsewhere(comments, found.id, body, marker);
  }

  /** A post that leaves the marker alone leaves the marker's comments as they are. */
  lemma {:induction false} OtherPostMarked(t: Thread, p: Post, marker: string)
    requires Numbered(t) && Unrelated(p, marker)
    requires forall c | c in Marked(t.comments, marker) :: !Includes(c.body, MarkerOf(p))
    ensures Marked(Posted(t, p).0.comments, marker) == Marked(t.comments, marker)
  {
    SearchIsFullScan(t.comments, MarkerOf(p));
    var r := Search(t.comments, MarkerOf(p), 0, []);
    if r.Found? {
      assert r.comment in Marked(t.comments, MarkerOf(p));
      MarkedAre(t.comments, MarkerOf(p), r.comment);
      EditElsewhere(t.comments, r.comment, FullBody(p), marker, MarkerOf(p));
    } else if r.NotFound? {
      var created := Comment(t.nextId, FullBody(p));
      MarkedConcat(t.comments, [created], marker);
      MarkedOne(created, marker);
    }
  }

  lemma {:induction false} OtherPost(t: Thread, p: Post, marker: string, body: Option<string>, others: set<string>)
    requires Owns(t, marker, body, others) && Unrelated(p, marker) && MarkerOf(p) in others
    ensures Owns(Posted(t, p).0, marker, body, others)
  {
    PostKeepsNumbering(t, p);
    OtherPostMarked(t, p, marker);
  }

  function PostAll(t: Thread, posts: seq<Post>): Thread
    decreases |posts|
  {
    if posts == [] then t else PostAll(Posted(t, posts[0]).0, posts[1..])
  }

  /** The text last posted under a marker. */
  function Latest(posts: seq<Post>, marker: string, before: Option<string>): Option<string>
    decreases |posts|
  {
    if posts == [] then before
    else Latest(posts[1..], marker, if MarkerOf(posts[0]) == marker then Some(FullBody(posts[0])) else before)
  }

  /** A post for the marker mentions none of the others; a post for another leaves the marker alone. */
  predicate KeepsApart(p: Post, marker: string, others: set<string>) {
    if MarkerOf(p) == marker then forall other | other in others :: !Includes(FullBody(p), other)
    else Unrelated(p, marker) && MarkerOf(p) in others
  }

  lemma {:induction false} PostKeepsOwnership(t: Thread, p: Post, marker: string, body: Option<string>,
                                              others: set<string>)
    requires Owns(t, marker, body, others) && KeepsApart(p, marker, others)
    ensures Owns(Posted(t, p).0, marker, if MarkerOf(p) == marker then Some(FullBody(p)) else body, others)
  {
    if MarkerOf(p) == marker {
      OwnPost(t, p, body, others);
    } else {
      OtherPost(t, p, marker, body, others);
    }
  }

  /**
   * From at most one marked comment, every run of posts, for this marker and for others that keep apart,
   * leaves at most one, and it holds the body last posted for the marker.
   */
  lemma {:induction false} OwnershipOverRuns(t: Thread, posts: seq<Post>, marker: string, body: Option<string>,
                                             others: set<string>)
    requires Owns(t, marker, body, others) && forall i | 0 <= i < |posts| :: KeepsApart(posts[i], marker, others)
    ensures Owns(PostAll(t, posts), marker, Latest(posts, marker, body), others)
    decreases |posts|
  {
    if posts != [] {
      var next := if MarkerOf(posts[0]) == marker then Some(FullBody(posts[0])) else body;
      PostKeepsOwnership(t, posts[0], marker, body, others);
      OwnershipOverRuns(Posted(t, posts[0]).0, posts[1..], marker, next, others);
    }
  }

  /** From two or more, every post for the marker is refused and changes nothing. */
  lemma {:induction false} AmbiguityBlocks(t: Thread, p: Post)
    ensures Posted(t, p).1.Blocked? <==> |Marked(t.comments, MarkerOf(p))| >= 2
    ensures Posted(t, p).1.Blocked? ==> Posted(t, p).0 == t
  {
    SearchIsFullScan(t.comments, MarkerOf(p));
  }

  // ---- When markers keep apart ----

  /** What a marker needs to be readable: a kind without `:` and `<`, an id without spaces. */
  predicate Readable(kind: string, id: string) {
    ':' !in kind && Unopened(kind) && OneWord(id)
  }

  predicate Unopened(s: string) { '<' !in s }

  predicate OneWord(s: string) { ' ' !in s }

  /** A shared stretch ended by a stop character that neither part contains. */
  lemma {:induction false} SameUpTo(a: string, x: string, b: string, y: string, stop: char)
    requires stop !in a && stop !in b && x != "" && y != "" && x[0] == stop && y[0] == stop
    requires a + x <= b + y || b + y <= a + x
    ensures a == b && (x <= y || y <= x)
    decreases |a|
  {
    assert a == "" <==> (a + x)[0] == stop;
    assert b == "" <==> (b + y)[0] == stop;
    if a == "" {
      assert a + x == x && b + y == y;
    } else {
      assert (a + x)[1..] == a[1..] + x && (b + y)[1..] == b[1..] + y;
      SameUpTo(a[1..], x, b[1..], y, stop);
      assert a == [a[0]] + a[1..] && b == [b[0]] + b[1..];
    }
  }

  /** A marker in front of a text shows its kind up to the colon and its id up to the space. */
  lemma {:induction false} MarkerPrefixes(kind: string, id: string, tail: string, kind2: string, id2: string)
    requires Readable(kind, id) && Readable(kind2, id2)
    requires BuildMarker(kind2, id2) <= BuildMarker(kind, id) + tail
    ensures kind == kind2 && id == id2
  {
    var end, end2 := id + (MARKER_END + tail), id2 + MARKER_END;
    assert BuildMarker(kind2, id2) == MARKER_START + (kind2 + (":" + end2));
    assert BuildMarker(kind, id) + tail == MARKER_START + (kind + (":" + end));
    CommonStart(MARKER_START, kind2 + (":" + end2), kind + (":" + end));
    SameUpTo(kind2, ":" + end2, kind, ":" + end, ':');
    CommonStart(":", end2, end);
    SameUpTo(id2, MARKER_END, id, MARKER_END + tail, ' ');
  }

  lemma CommonStart(a: string, x: string, y: string)
    requires a + x <= a + y || a + y <= a + x
    ensures x <= y || y <= x
  {
    if a + x <= a + y {
      assert x == (a + x)[|a|..] && y == (a + y)[|a|..];
      assert (a + y)[..|a + x|] == a + x;
      assert y[..|x|] == (a + y)[|a|..|a + x|];
    } else {
      assert (a + x)[..|a + y|] == a + y;
      assert x[..|y|] == (a + x)[|a|..|a + y|];
    }
  }

  lemma {:induction false} IncludesLater(s: string, i: nat, part: string)
    requires i <= |s| && Includes(s[i..], part)
    ensures Includes(s, part)
  {
    if i > 0 {
      assert s[1..][i - 1..] == s[i..];
      IncludesLater(s[1..], i - 1, part);
    } else {
      assert s[0..] == s;
    }
  }

  lemma Mismatch(s: string, i: nat, k: nat)
    requires i + k < |s| && k < |MARKER_START| && s[i + k] != MARKER_START[k]
    ensures !(MARKER_START <= s[i..])
  {
    assert s[i..][k] == s[i + k];
  }

  /** No marker starts inside another: its opening would need a colon in the kind or a space in the id. */
  lemma {:induction false} NoneInside(kind: string, id: string, tail: string, i: nat)
    requires Readable(kind, id) && 0 < i < |BuildMarker(kind, id)|
    ensures !(MARKER_START <= (BuildMarker(kind, id) + tail)[i..])
  {
    var front := |MARKER_START + kind + ":"|;
    if i < front {
      NoneInKind(kind, ":" + id + MARKER_END + tail, i);
      assert BuildMarker(kind, id) + tail == MARKER_START + kind + (":" + id + MARKER_END + tail);
    } else {
      NoneInId(MARKER_START + kind + ":", id, tail, i - front);
      assert BuildMarker(kind, id) + tail == (MARKER_START + kind + ":") + id + MARKER_END + tail;
    }
  }

  lemma {:induction false} NoneInKind(kind: string, rest: string, i: nat)
    requires Unopened(kind) && 0 < i <= |MARKER_START + kind| && rest != "" && rest[0] != MARKER_START[0]
    ensures !(MARKER_START <= (MARKER_START + kind + rest)[i..])
  {
    var s := MARKER_START + kind + rest;
    if i < |MARKER_START| {
      assert s[i] == MARKER_START[i];
    } else if i < |MARKER_START + kind| {
      assert s[i] == kind[i - |MARKER_START|] && s[i] in kind;
    }
    Mismatch(s, i, 0);
  }

  lemma {:induction false} NoneInId(before: string, id: string, tail: string, i: nat)
    requires OneWord(id) && i < |id + MARKER_END|
    ensures !(MARKER_START <= (before + id + MARKER_END + tail)[|before| + i..])
  {
    var s := before + id + MARKER_END + tail;
    var from, space := |before| + i, |before| + |id|;
    assert forall k | 0 <= k < 4 :: s[space + k] == MARKER_END[k];
    if space <= from {
      Mismatch(s, from, 0);
    } else if from + 4 < space {
      assert s[from + 4] == id[i + 4] && id[i + 4] in id;
      Mismatch(s, from, 4);
    } else if from + 4 == space {
      Mismatch(s, from, 5);
    } else {
      Mismatch(s, from, space - from);
    }
  }

  /** A marker is one hidden HTML comment: it opens and closes one, and closes nowhere before its end. */
  lemma {:induction false} MarkerIsHidden(kind: string, id: string)
    requires '>' !in kind && '>' !in id
    ensures var m := BuildMarker(kind, id);
            && |m| > 9 && m[..5] == "<!-- " && m[|m| - 4..] == " -->" && '>' !in m[..|m| - 1]
            && m[5..|m| - 4] == "gitwire:" + kind + ":" + id
  {
    var m := BuildMarker(kind, id);
    var inner := "gitwire:" + kind + ":" + id;
    assert m == "<!-- " + inner + " -->";
    assert m[..|m| - 1] == "<!-- " + inner + " --";
  }

  /** Where a posted text includes a marker: at its front, if it is its own, or in the visible body. */
  lemma {:induction false} MarkersExact(p: Post, q: Post)
    requires Readable(p.kind, p.id) && Readable(q.kind, q.id)
    ensures Includes(FullBody(p), MarkerOf(q)) <==> (p.kind == q.kind && p.id == q.id) || Includes(p.body, MarkerOf(q))
  {
    var whole, own := FullBody(p), MarkerOf(p);
    assert whole[|own| + 1..] == p.body;
    if Includes(whole, MarkerOf(q)) {
      IncludesAt(whole, MarkerOf(q));
      var i :| 0 <= i <= |whole| && MarkerOf(q) <= whole[i..];
      MarkerFoundAt(p, q, i);
    }
    if p.kind == q.kind && p.id == q.id {
      OwnMarkerIncluded(p);
    }
    if Includes(p.body, MarkerOf(q)) {
      IncludesLater(whole, |own| + 1, MarkerOf(q));
    }
  }

  lemma {:induction false} MarkerFoundAt(p: Post, q: Post, i: nat)
    requires Readable(p.kind, p.id) && Readable(q.kind, q.id) && i <= |FullBody(p)| && MarkerOf(q) <= FullBody(p)[i..]
    ensures (p.kind == q.kind && p.id == q.id) || Includes(p.body, MarkerOf(q))
  {
    var whole, own := FullBody(p), MarkerOf(p);
    assert whole == own + ("\n" + p.body);
    assert MARKER_START <= MarkerOf(q) <= whole[i..];
    assert whole[i] == whole[i..][0] == '<';
    if i == 0 {
      assert whole[0..] == whole;
      MarkerPrefixes(p.kind, p.id, "\n" + p.body, q.kind, q.id);
    } else if i < |own| {
      NoneInside(p.kind, p.id, "\n" + p.body, i);
    } else {
      assert whole[|own|] == '\n';
      assert whole[i..] == p.body[i - |own| - 1..];
      IncludesPrefix(p.body[i - |own| - 1..], MarkerOf(q));
      IncludesLater(p.body, i - |own| - 1, MarkerOf(q));
    }
  }

  lemma IncludesPrefix(s: string, part: string)
    requires part <= s
    ensures Includes(s, part)
  {
  }

  /** The markers of a run. */
  function MarkersOf(posts: seq<Post>): set<string> {
    set p | p in posts :: MarkerOf(p)
  }

  /** No visible body of the run shows another marker of the run, or `marker`. */
  predicate NoneQuoted(posts: seq<Post>, marker: string) {
    forall p, m | p in posts && m in MarkersOf(posts) + {marker} && m != MarkerOf(p) :: !Includes(p.body, m)
  }

  predicate AllReadable(posts: seq<Post>) {
    forall p | p in posts :: Readable(p.kind, p.id)
  }

  lemma {:induction false} UnquotedKeepsApart(p: Post, kind: string, id: string, posts: seq<Post>)
    requires Readable(kind, id) && AllReadable(posts) && p in posts && NoneQuoted(posts, BuildMarker(kind, id))
    ensures var marker := BuildMarker(kind, id); KeepsApart(p, marker, MarkersOf(posts) - {marker})
  {
    var marker := BuildMarker(kind, id);
    if MarkerOf(p) == marker {
      forall m | m in MarkersOf(posts) - {marker} ensures !Includes(FullBody(p), m) {
        var q :| q in posts && MarkerOf(q) == m;
        assert m in MarkersOf(posts) + {marker};
        MarkersExact(p, q);
      }
    } else {
      assert marker in MarkersOf(posts) + {marker};
      assert MarkerOf(Post(kind, id, "")) == marker;
      MarkersExact(p, Post(kind, id, ""));
    }
  }

  /** After these posts on a fresh issue the marker has one comment with its latest text, or none if never posted. */
  predicate LatestOwned(posts: seq<Post>, marker: string) {
    var owned := Marked(PostAll(Thread([], 0), posts).comments, marker);
    match Latest(posts, marker, None)
    case None => owned == []
    case Some(text) => |owned| == 1 && owned[0].body == text
  }

  /**
   * On a fresh issue, posts of any readable kinds and ids in any order, whose visible bodies show none of
   * the other markers: one comment per marker, holding its latest text.
   */
  lemma {:induction false} RunsOwn(posts: seq<Post>, kind: string, id: string)
    requires Readable(kind, id) && AllReadable(posts) && NoneQuoted(posts, BuildMarker(kind, id))
    ensures LatestOwned(posts, BuildMarker(kind, id))
  {
    var marker := BuildMarker(kind, id);
    var others := MarkersOf(posts) - {marker};
    forall i | 0 <= i < |posts| ensures KeepsApart(posts[i], marker, others) {
      UnquotedKeepsApart(posts[i], kind, id, posts);
    }
    OwnershipOverRuns(Thread([], 0), posts, marker, None, others);
  }

  /** The condition on bodies is exact: of two posts the first keeps its comment only if neither quotes the other. */
  lemma {:induction false} QuotingLosesOwnership(p: Post, q: Post)
    requires Readable(p.kind, p.id) && Readable(q.kind, q.id) && MarkerOf(p) != MarkerOf(q)
    ensures var owned := Marked(PostAll(Thread([], 0), [p, q]).comments, MarkerOf(p));
            (|owned| == 1 && owned[0].body == FullBody(p))
            <==> !Includes(p.body, MarkerOf(q)) && !Includes(q.body, MarkerOf(p))
  {
    var first := Comment(0, FullBody(p));
    var t := Thread([first], 1);
    OwnMarkerIncluded(p);
    OwnMarkerIncluded(q);
    MarkersExact(p, q);
    MarkersExact(q, p);
    SearchIsFullScan([], MarkerOf(p));
    assert [] + [first] == [first];
    assert Posted(Thread([], 0), p).0 == t;
    assert [p, q][1..] == [q] && [q][1..] == [];
    assert PostAll(Thread([], 0), [p, q]) == PostAll(t, [q]) == Posted(t, q).0;
    SearchIsFullScan([first], MarkerOf(q));
    MarkedOne(first, MarkerOf(p));
    MarkedOne(first, MarkerOf(q));
    if Includes(p.body, MarkerOf(q)) {
      var second := Comment(0, FullBody(q));
      assert Posted(t, q).0.comments == Patch([first], 0, FullBody(q)) == [second];
      MarkedOne(second, MarkerOf(p));
      DifferentTexts(p, q);
    } else {
      var second := Comment(1, FullBody(q));
      assert Posted(t, q).0.comments == [first] + [second];
      MarkedConcat([first], [second], MarkerOf(p));
      MarkedOne(second, MarkerOf(p));
    }
  }

  lemma {:induction false} DifferentTexts(p: Post, q: Post)
    requires Readable(p.kind, p.id) && Readable(q.kind, q.id) && MarkerOf(p) != MarkerOf(q)
    ensures FullBody(p) != FullBody(q)
  {
    if FullBody(p) == FullBody(q) {
      assert FullBody(p) == MarkerOf(p) + ("\n" + p.body) && MarkerOf(q) <= FullBody(q);
      MarkerPrefixes(p.kind, p.id, "\n" + p.body, q.kind, q.id);
    }
  }

  // ---- The exact condition on a set of posts ----

  predicate Within(run: seq<Post>, all: set<Post>) {
    forall p | p in run :: p in all
  }

  /** Every run over the posts, in any order and with repetition, leaves each of their markers owned. */
  ghost predicate EveryRunOwns(all: set<Post>) {
    forall run, p | Within(run, all) && p in all :: LatestOwned(run, MarkerOf(p))
  }

  /** No visible body shows the marker of another of the posts. */
  predicate NoneQuotesAnother(all: set<Post>) {
    forall p, q | p in all && q in all && MarkerOf(p) != MarkerOf(q) :: !Includes(p.body, MarkerOf(q))
  }

  /** A quoted marker already loses its comment in a run of two. */
  lemma {:induction false} QuotingBreaksRun(p: Post, q: Post)
    requires Readable(p.kind, p.id) && Readable(q.kind, q.id) && MarkerOf(p) != MarkerOf(q)
    requires Includes(p.body, MarkerOf(q))
    ensures !LatestOwned([p, q], MarkerOf(p))
  {
    QuotingLosesOwnership(p, q);
    assert [p, q][1..] == [q] && [q][1..] == [];
    assert Latest([q], MarkerOf(p), Some(FullBody(p))) == Latest([], MarkerOf(p), Some(FullBody(p)));
    assert Latest([p, q], MarkerOf(p), None) == Some(FullBody(p));
  }

  /** For posts of readable kinds and ids: every run owns exactly when no body shows another's marker. */
  lemma {:induction false} EveryRunOwnsExactly(all: set<Post>)
    requires forall p | p in all :: Readable(p.kind, p.id)
    ensures EveryRunOwns(all) <==> NoneQuotesAnother(all)
  {
    if NoneQuotesAnother(all) {
      forall run, p | Within(run, all) && p in all ensures LatestOwned(run, MarkerOf(p)) {
        forall r, m | r in run && m in MarkersOf(run) + {MarkerOf(p)} && m != MarkerOf(r) ensures !Includes(r.body, m) {
          var q :| q in all && MarkerOf(q) == m;
        }
        RunsOwn(run, p.kind, p.id);
      }
    } else {
      var p, q :| p in all && q in all && MarkerOf(p) != MarkerOf(q) && Includes(p.body, MarkerOf(q));
      QuotingBreaksRun(p, q);
      assert Within([p, q], all);
    }
  }
}
