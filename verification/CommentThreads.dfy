/** The comment table: creation, the shape it keeps, and paths that sort in tree order. */
module CommentThreads {
  import opened Options
  import opened CommentPaths

  const MAX_DEPTH := 10

  /** A comment's id is its place in the table, so ids grow in creation order. */
  datatype Comment = Comment(post: nat, parent: Option<nat>, path: string, visible: bool)

  type Table = seq<Comment>

  /** The paths of the comments with a given parent (or of the roots) of a post. */
  function SiblingPaths(t: Table, post: nat, parent: Option<nat>): seq<string> {
    if t == [] then []
    else
      var last := t[|t| - 1];
      SiblingPaths(t[..|t| - 1], post, parent) + if last.post == post && last.parent == parent then [last.path] else []
  }

  function Place(t: Table, post: nat, parent: Option<nat>): Result<Comment>
    requires parent.Some? ==> parent.value < |t|
  {
    if parent.Some? && t[parent.value].post != post then Err(WrongPost)
    else if parent.Some? && Depth(t[parent.value].path) >= MAX_DEPTH then Err(TooDeep)
    else
      match NextOf(SiblingPaths(t, post, parent))
      case Err(e) => Err(e)
      case Ok(segment) =>
        Ok(Comment(post, parent, if parent.Some? then t[parent.value].path + "." + segment else segment, true))
  }

  class CommentStore {
    var table: Table

    constructor ()
      ensures table == []
    {
      table := [];
    }

    /** The sibling query. */
    method QuerySiblings(post: nat, parent: Option<nat>) returns (paths: seq<string>)
      ensures paths == SiblingPaths(table, post, parent)
    {
      paths := [];
      for k := 0 to |table|
        invariant paths == SiblingPaths(table[..k], post, parent)
      {
        assert table[..k + 1][..k] == table[..k];
        if table[k].post == post && table[k].parent == parent {
          paths := paths + [table[k].path];
        }
      }
      assert table[..|table|] == table;
    }

    method CreateComment(post: nat, parent: Option<nat>) returns (created: Result<Comment>)
      requires parent.Some? ==> parent.value < |table|
      modifies this
      ensures created == Place(old(table), post, parent)
      ensures table == if created.Ok? then old(table) + [created.value] else old(table)
    {
      if parent.Some? {
        if table[parent.value].post != post {
          return Err(WrongPost);
        }
        if Depth(table[parent.value].path) >= MAX_DEPTH {
          return Err(TooDeep);
        }
      }
      var paths := QuerySiblings(post, parent);
      var segment := NextSegment(paths);
      if segment.Err? {
        return Err(segment.error);
      }
      var path := if parent.Some? then table[parent.value].path + "." + segment.value else segment.value;
      var comment := Comment(post, parent, path, true);
      table := table + [comment];
      created := Ok(comment);
    }

    /** `delete_comment` is soft: the row stays, hidden. */
    method DeleteComment(id: nat)
      requires id < |table|
      modifies this
      ensures table == Hidden(old(table), id)
    {
      table := table[id := table[id].(visible := false)];
    }
  }

  function Hidden(t: Table, id: nat): Table
    requires id < |t|
  {
    t[id := t[id].(visible := false)]
  }

  // ----- the shape of the table

  /** The number in the last segment of a path. */
  function Ordinal(path: string): nat {
    var n := ParseInt(LastSegment(path));
    if n.Some? then n.value else 0
  }

  /** The ordinals on the way down to a comment. */
  function Trail(t: Table, i: nat): (ns: seq<nat>)
    requires i < |t|
    ensures ns != []
  {
    (if t[i].parent.Some? && t[i].parent.value < i then Trail(t, t[i].parent.value) else []) + [Ordinal(t[i].path)]
  }

  function Older(t: Table, i: nat): nat
    requires i < |t|
  {
    |SiblingPaths(t[..i], t[i].post, t[i].parent)|
  }

  predicate PlacedOk(t: Table, i: nat)
    requires i < |t|
  {
    && (t[i].parent.Some? ==> t[i].parent.value < i && t[t[i].parent.value].post == t[i].post)
    && Segments(Trail(t, i)) && |Trail(t, i)| <= MAX_DEPTH
    && t[i].path == Encode(Trail(t, i))
    && Ordinal(t[i].path) == Older(t, i) + 1
  }

  /** Paths spell out the ancestors, and a comment is numbered by its place among its siblings. */
  predicate Threaded(t: Table) {
    forall i: nat | i < |t| :: PlacedOk(t, i)
  }

  lemma {:induction false} TrailKept(t: Table, u: Table, i: nat)
    requires i < |t| <= |u| && forall k | 0 <= k < |t| :: u[k].parent == t[k].parent && u[k].path == t[k].path
    ensures Trail(u, i) == Trail(t, i)
  {
    if t[i].parent.None? || t[i].parent.value >= i {
    } else {
      TrailKept(t, u, t[i].parent.value);
    }
  }

  lemma {:induction false} SiblingsKept(t: Table, u: Table, post: nat, parent: Option<nat>)
    requires |t| == |u| && forall k | 0 <= k < |t| :: u[k].post == t[k].post && u[k].parent == t[k].parent && u[k].path == t[k].path
    ensures SiblingPaths(t, post, parent) == SiblingPaths(u, post, parent)
  {
    if t == [] {
    } else {
      SiblingsKept(t[..|t| - 1], u[..|u| - 1], post, parent);
    }
  }

  lemma PlacedKept(t: Table, u: Table, i: nat)
    requires i < |t| <= |u| && PlacedOk(t, i)
    requires forall k | 0 <= k < |t| :: u[k].post == t[k].post && u[k].parent == t[k].parent && u[k].path == t[k].path
    ensures PlacedOk(u, i)
  {
    TrailKept(t, u, i);
    SiblingsKept(t[..i], u[..i], t[i].post, t[i].parent);
    hide Trail, Encode, SiblingPaths, Ordinal, Segments;
  }

  lemma HiddenThreaded(t: Table, id: nat)
    requires Threaded(t) && id < |t|
    ensures Threaded(Hidden(t, id))
  {
    forall i: nat | i < |t| ensures PlacedOk(Hidden(t, id), i) {
      assert PlacedOk(t, i);
      PlacedKept(t, Hidden(t, id), i);
    }
  }

  lemma OrdinalOfPad(front: string, n: nat)
    requires n <= MAX_SEGMENT
    ensures Ordinal(Pad(n)) == n && Ordinal(front + "." + Pad(n)) == n
  {
    PadParses(n);
    PlainSegment(Pad(n));
    SegmentAfterDot(front, Pad(n));
  }

  lemma LastOfPath(t: Table, i: nat)
    requires i < |t| && PlacedOk(t, i)
    ensures ParseInt(LastSegment(t[i].path)) == Some(Ordinal(t[i].path)) && Ordinal(t[i].path) <= MAX_SEGMENT
  {
    var ns := Trail(t, i);
    var n := ns[|ns| - 1];
    assert n == Ordinal(t[i].path);
    PadParses(n);
    if |ns| == 1 {
      PlainSegment(Pad(n));
    } else {
      var front := ns[..|ns| - 1];
      assert front + [n] == ns;
      EncodeReply(front, n);
      SegmentAfterDot(Encode(front), Pad(n));
    }
  }

  lemma HighestAdded(paths: seq<string>, path: string)
    requires Highest(paths) == Some(|paths|) && ParseInt(LastSegment(path)) == Some(|paths| + 1)
    ensures Highest(paths + [path]) == Some(|paths| + 1)
  {
    assert (paths + [path])[..|paths + [path]| - 1] == paths;
  }

  lemma NumberHere(t: Table, i: nat)
    requires i < |t| && Threaded(t)
    ensures ParseInt(LastSegment(t[i].path)) == Some(|SiblingPaths(t[..i], t[i].post, t[i].parent)| + 1)
  {
    assert PlacedOk(t, i);
    LastOfPath(t, i);
    hide ParseInt, LastSegment, Trail, Encode, Segments, Ordinal, SiblingPaths;
  }

  /** The highest sibling number is the number of siblings. */
  lemma {:induction false} HighestIsCount(t: Table, u: Table, post: nat, parent: Option<nat>)
    requires Threaded(t) && u <= t
    ensures Highest(SiblingPaths(u, post, parent)) == Some(|SiblingPaths(u, post, parent)|)
  {
    if u == [] {
    } else {
      var i := |u| - 1;
      assert u[..i] == t[..i] && u[i] == t[i];
      hide Highest, ParseInt, LastSegment, PlacedOk;
      HighestIsCount(t, u[..i], post, parent);
      if u[i].post == post && u[i].parent == parent {
        NumberHere(t, i);
        HighestAdded(SiblingPaths(u[..i], post, parent), u[i].path);
      } else {
        assert SiblingPaths(u, post, parent) == SiblingPaths(u[..i], post, parent);
      }
    }
  }

  /** A comment is refused for its segment exactly when it would be the thousandth sibling. */
  lemma NextIsCount(t: Table, post: nat, parent: Option<nat>)
    requires Threaded(t)
    ensures var n := |SiblingPaths(t, post, parent)|;
      NextOf(SiblingPaths(t, post, parent)) == if n >= MAX_SEGMENT then Err(TooManySiblings) else Ok(Pad(n + 1))
  {
    HighestIsCount(t, t, post, parent);
  }

  lemma DepthIsTrail(t: Table, i: nat)
    requires i < |t| && PlacedOk(t, i)
    ensures Depth(t[i].path) == |Trail(t, i)|
  {
    DepthIsLength(Trail(t, i));
  }

  /** Creating a comment keeps the table threaded. */
  lemma PlaceThreaded(t: Table, post: nat, parent: Option<nat>)
    requires Threaded(t) && (parent.Some? ==> parent.value < |t|) && Place(t, post, parent).Ok?
    ensures Threaded(t + [Place(t, post, parent).value])
  {
    var c := Place(t, post, parent).value;
    var u := t + [c];
    forall i: nat | i < |t| ensures PlacedOk(u, i) {
      assert PlacedOk(t, i);
      PlacedKept(t, u, i);
    }
    NewPlaced(t, post, parent);
  }

  lemma NewPlaced(t: Table, post: nat, parent: Option<nat>)
    requires Threaded(t) && (parent.Some? ==> parent.value < |t|) && Place(t, post, parent).Ok?
    ensures PlacedOk(t + [Place(t, post, parent).value], |t|)
  {
    var u := t + [Place(t, post, parent).value];
    assert u[..|t|] == t;
    NextIsCount(t, post, parent);
    if parent.Some? {
      ReplyPlaced(t, post, parent.value);
    } else {
      var n := |SiblingPaths(t, post, None)| + 1;
      OrdinalOfPad("", n);
      assert Trail(u, |t|) == [n];
      hide SiblingPaths, Ordinal, NextOf;
    }
  }

  lemma ReplyTrail(t: Table, c: Comment, p: nat, n: nat)
    requires Threaded(t) && p < |t| && 1 <= n <= MAX_SEGMENT && c.parent == Some(p) && c.path == t[p].path + "." + Pad(n)
    ensures Segments(Trail(t, p)) && Trail(t + [c], |t|) == Trail(t, p) + [n]
    ensures c.path == Encode(Trail(t, p) + [n]) && Ordinal(c.path) == n && Depth(t[p].path) == |Trail(t, p)|
  {
    assert PlacedOk(t, p);
    DepthIsTrail(t, p);
    TrailKept(t, t + [c], p);
    OrdinalOfPad(t[p].path, n);
    EncodeReply(Trail(t, p), n);
    hide Encode, Ordinal, SiblingPaths, Pad, Depth;
  }

  /** What an accepted reply looks like. */
  lemma ReplyAccepted(t: Table, post: nat, p: nat)
    requires Threaded(t) && p < |t| && Place(t, post, Some(p)).Ok?
    ensures var c, n := Place(t, post, Some(p)).value, |SiblingPaths(t, post, Some(p))| + 1;
      && 1 <= n <= MAX_SEGMENT && t[p].post == post && Depth(t[p].path) < MAX_DEPTH
      && c == Comment(post, Some(p), t[p].path + "." + Pad(n), true)
  {
    NextIsCount(t, post, Some(p));
    hide NextOf, SiblingPaths, Depth, Pad, Threaded;
  }

  lemma ReplyPlaced(t: Table, post: nat, p: nat)
    requires Threaded(t) && p < |t| && Place(t, post, Some(p)).Ok?
    ensures PlacedOk(t + [Place(t, post, Some(p)).value], |t|)
  {
    hide Encode, Ordinal, SiblingPaths, Pad, Depth, Trail, NextOf, Threaded, Place, Segments;
    var c := Place(t, post, Some(p)).value;
    var n := |SiblingPaths(t, post, Some(p))| + 1;
    ReplyAccepted(t, post, p);
    ReplyTrail(t, c, p, n);
    SegmentsExtend(Trail(t, p), n);
    assert (t + [c])[..|t|] == t;
  }

  lemma SegmentsExtend(ns: seq<nat>, n: nat)
    requires Segments(ns) && 1 <= n <= MAX_SEGMENT
    ensures Segments(ns + [n])
  {
  }

  lemma {:induction false} PathLength(ns: seq<nat>)
    requires Segments(ns)
    ensures |Encode(ns)| == 4 * |ns| - 1
  {
    if |ns| == 1 {
    } else {
      PathLength(ns[1..]);
    }
  }

  /** Which comments are refused: under a parent of another post, below depth ten, as the thousandth sibling. */
  lemma RefusedExactly(t: Table, post: nat, parent: Option<nat>)
    requires Threaded(t) && (parent.Some? ==> parent.value < |t|)
    ensures Place(t, post, parent).Ok? <==>
      && (parent.Some? ==> t[parent.value].post == post && |Trail(t, parent.value)| < MAX_DEPTH)
      && |SiblingPaths(t, post, parent)| < MAX_SEGMENT
    ensures Place(t, post, parent) != Err(BadSegment)
    ensures forall i: nat | i < |t| :: |t[i].path| < 255
  {
    NextIsCount(t, post, parent);
    if parent.Some? {
      assert PlacedOk(t, parent.value);
      DepthIsTrail(t, parent.value);
    }
    forall i: nat | i < |t| ensures |t[i].path| < 255 {
      assert PlacedOk(t, i);
      PathLength(Trail(t, i));
    }
  }

  // ----- whole runs

  datatype Request = Reply(post: nat, parent: Option<nat>) | Delete(id: nat)

  /** A request on the table; one that names a comment that does not exist cannot be made. */
  function Served(t: Table, r: Request): Table {
    match r
    case Reply(post, parent) =>
      if parent.Some? && parent.value >= |t| then t
      else
        var placed := Place(t, post, parent);
        if placed.Ok? then t + [placed.value] else t
    case Delete(id) => if id < |t| then Hidden(t, id) else t
  }

  function Run(t: Table, rs: seq<Request>): Table
    decreases |rs|
  {
    if rs == [] then t else Run(Served(t, rs[0]), rs[1..])
  }

  /** One request on the comment at i: only its own deletion changes anything, and that only hides it. */
  lemma ServedAt(t: Table, r: Request, i: nat)
    requires i < |t|
    ensures i < |Served(t, r)|
    ensures Served(t, r)[i] == t[i].(visible := t[i].visible && r != Delete(i))
  {
    hide Place;
  }

  /**
   * After any requests a comment stands where it stood, with its path and its parent; it is visible exactly when
   * it was and none of them deleted it.
   */
  lemma {:induction false} VisibleExactly(t: Table, rs: seq<Request>, i: nat)
    requires i < |t|
    ensures i < |Run(t, rs)|
    ensures Run(t, rs)[i] == t[i].(visible := t[i].visible && Delete(i) !in rs)
    decreases |rs|
  {
    if rs == [] {
    } else {
      hide Served;
      assert rs == [rs[0]] + rs[1..];
      assert Delete(i) in rs <==> rs[0] == Delete(i) || Delete(i) in rs[1..];
      ServedAt(t, rs[0], i);
      VisibleExactly(Served(t, rs[0]), rs[1..], i);
    }
  }

  /** A comment that is accepted is added at the end, visible. */
  lemma CreatedVisible(t: Table, post: nat, parent: Option<nat>)
    requires (parent.Some? ==> parent.value < |t|) && Place(t, post, parent).Ok?
    ensures var u := Served(t, Reply(post, parent));
      |u| == |t| + 1 && u[|t|].visible && u[|t|].post == post && u[|t|].parent == parent
  {
    hide NextOf, SiblingPaths;
  }

  /** Every table that requests can lead to is threaded. */
  lemma {:induction false} RunThreaded(t: Table, rs: seq<Request>)
    requires Threaded(t)
    ensures Threaded(Run(t, rs))
    decreases |rs|
  {
    if rs == [] {
    } else {
      match rs[0] {
        case Reply(post, parent) =>
          if (parent.Some? ==> parent.value < |t|) && Place(t, post, parent).Ok? {
            PlaceThreaded(t, post, parent);
          }
        case Delete(id) =>
          if id < |t| {
            HiddenThreaded(t, id);
          }
      }
      RunThreaded(Served(t, rs[0]), rs[1..]);
    }
  }

  // ----- paths and the tree

  /** `a` is `d` or one of its ancestors. */
  predicate Above(t: Table, a: nat, d: nat)
    requires a < |t| && d < |t|
    decreases d
  {
    a == d || (t[d].parent.Some? && t[d].parent.value < d && Above(t, a, t[d].parent.value))
  }

  predicate Siblings(t: Table, a: nat, b: nat)
    requires a < |t| && b < |t|
  {
    t[a].post == t[b].post && t[a].parent == t[b].parent
  }

  /** Tree preorder: a comment before its replies, and the subtree of an older sibling before that of a younger. */
  predicate Precedes(t: Table, i: nat, j: nat)
    requires i < |t| && j < |t|
  {
    (i != j && Above(t, i, j)) ||
    exists a: nat, b: nat | a < b < |t| :: Siblings(t, a, b) && Above(t, a, i) && Above(t, b, j)
  }

  lemma {:induction false} AboveExtends(t: Table, a: nat, d: nat)
    requires Threaded(t) && a < |t| && d < |t| && Above(t, a, d)
    ensures Trail(t, a) <= Trail(t, d) && t[a].post == t[d].post && a <= d
    ensures a != d ==> |Trail(t, a)| < |Trail(t, d)|
    decreases d
  {
    assert PlacedOk(t, d);
    if a == d {
    } else {
      AboveExtends(t, a, t[d].parent.value);
    }
  }

  lemma {:induction false} SiblingsGrow(t: Table, u: Table, post: nat, parent: Option<nat>)
    requires u <= t
    ensures |SiblingPaths(u, post, parent)| <= |SiblingPaths(t, post, parent)|
    decreases |t|
  {
    if |u| < |t| {
      SiblingsGrow(t[..|t| - 1], u, post, parent);
    } else {
      assert u == t;
    }
  }

  /** Siblings are numbered in creation order. */
  lemma SiblingsOrdered(t: Table, a: nat, b: nat)
    requires Threaded(t) && a < b < |t| && Siblings(t, a, b)
    ensures Ordinal(t[a].path) < Ordinal(t[b].path)
  {
    assert PlacedOk(t, a) && PlacedOk(t, b);
    assert t[..a + 1][..a] == t[..a];
    SiblingsGrow(t[..b], t[..a + 1], t[a].post, t[a].parent);
  }

  /** Paths within a post are unique. */
  lemma {:induction false} TrailUnique(t: Table, i: nat, j: nat)
    requires Threaded(t) && i < |t| && j < |t| && t[i].post == t[j].post && Trail(t, i) == Trail(t, j)
    ensures i == j
  {
    assert PlacedOk(t, i) && PlacedOk(t, j);
    var a, b := Trail(t, i), Trail(t, j);
    assert a[|a| - 1] == Ordinal(t[i].path) && b[|b| - 1] == Ordinal(t[j].path);
    if t[i].parent.None? || t[j].parent.None? {
    } else {
      assert Trail(t, t[i].parent.value) == a[..|a| - 1] && Trail(t, t[j].parent.value) == b[..|b| - 1];
      TrailUnique(t, t[i].parent.value, t[j].parent.value);
    }
    if i < j {
      SiblingsOrdered(t, i, j);
    } else if j < i {
      SiblingsOrdered(t, j, i);
    }
  }

  lemma UniquePaths(t: Table, i: nat, j: nat)
    requires Threaded(t) && i < |t| && j < |t| && i != j && t[i].post == t[j].post
    ensures t[i].path != t[j].path
  {
    assert PlacedOk(t, i) && PlacedOk(t, j);
    if t[i].path == t[j].path {
      PathsCompare(Trail(t, i), Trail(t, j));
      PathsCompare(Trail(t, j), Trail(t, i));
      LessTotal(Trail(t, i), Trail(t, j));
      TextIrreflexive(t[i].path);
      TrailUnique(t, i, j);
    }
  }

  lemma {:induction false} TextIrreflexive(s: string)
    ensures !TextLess(s, s)
  {
    if s == "" {
    } else {
      TextIrreflexive(s[1..]);
    }
  }

  lemma {:induction false} LessTotal(xs: seq<nat>, ys: seq<nat>)
    ensures Less(xs, ys) || Less(ys, xs) || xs == ys
  {
    if xs == [] || ys == [] || xs[0] != ys[0] {
    } else {
      LessTotal(xs[1..], ys[1..]);
      assert xs == [xs[0]] + xs[1..] && ys == [ys[0]] + ys[1..];
    }
  }

  lemma {:induction false} PrefixLess(xs: seq<nat>, ys: seq<nat>)
    requires xs <= ys && |xs| < |ys|
    ensures Less(xs, ys)
  {
    if xs == [] {
    } else {
      PrefixLess(xs[1..], ys[1..]);
    }
  }

  /** Lists that agree up to k and then differ compare as their entries at k. */
  lemma {:induction false} DifferLess(xs: seq<nat>, ys: seq<nat>, k: nat)
    requires k < |xs| && k < |ys| && xs[..k] == ys[..k] && xs[k] != ys[k]
    ensures Less(xs, ys) <==> xs[k] < ys[k]
  {
    if k == 0 {
    } else {
      assert xs[0] == xs[..k][0] == ys[..k][0] == ys[0];
      assert xs[1..][..k - 1] == xs[..k][1..] && ys[1..][..k - 1] == ys[..k][1..];
      DifferLess(xs[1..], ys[1..], k - 1);
    }
  }

  /** Where two lists part: one runs out, or the first difference. */
  lemma {:induction false} Parting(xs: seq<nat>, ys: seq<nat>) returns (k: nat)
    ensures k <= |xs| && k <= |ys| && xs[..k] == ys[..k]
    ensures k < |xs| && k < |ys| ==> xs[k] != ys[k]
  {
    if xs == [] || ys == [] || xs[0] != ys[0] {
      k := 0;
    } else {
      var m := Parting(xs[1..], ys[1..]);
      k := m + 1;
      assert xs[..k] == [xs[0]] + xs[1..][..m] && ys[..k] == [ys[0]] + ys[1..][..m];
    }
  }

  /** Every beginning of a trail is the trail of an ancestor. */
  lemma {:induction false} AncestorAt(t: Table, i: nat, n: nat) returns (a: nat)
    requires Threaded(t) && i < |t| && 0 < n <= |Trail(t, i)|
    ensures a < |t| && Above(t, a, i) && Trail(t, a) == Trail(t, i)[..n] && t[a].post == t[i].post
  {
    assert PlacedOk(t, i);
    if n == |Trail(t, i)| {
      a := i;
    } else {
      a := AncestorAt(t, t[i].parent.value, n);
    }
  }
}
