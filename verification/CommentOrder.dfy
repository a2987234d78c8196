/** Sorting by path is tree preorder, and what that means for the tree that is shown. */
module CommentOrder {
  import opened Options
  import opened CommentPaths
  import opened CommentThreads
  import CommentTree

  lemma TrailsCompare(t: Table, i: nat, j: nat)
    requires Threaded(t) && i < |t| && j < |t|
    ensures TextLess(t[i].path, t[j].path) <==> Less(Trail(t, i), Trail(t, j))
  {
    assert PlacedOk(t, i) && PlacedOk(t, j);
    PathsCompare(Trail(t, i), Trail(t, j));
  }

  /** A trail that begins with another belongs to a comment below it. */
  lemma PrefixIsAbove(t: Table, i: nat, j: nat)
    requires Threaded(t) && i < |t| && j < |t| && t[i].post == t[j].post && Trail(t, i) <= Trail(t, j)
    ensures Above(t, i, j)
  {
    var a := AncestorAt(t, j, |Trail(t, i)|);
    TrailUnique(t, i, a);
  }

  lemma TrailEnds(t: Table, a: nat)
    requires Threaded(t) && a < |t|
    ensures var ns := Trail(t, a);
      && Ordinal(t[a].path) == ns[|ns| - 1]
      && (t[a].parent.Some? <==> |ns| > 1)
      && (t[a].parent.Some? ==> t[a].parent.value < a && Trail(t, t[a].parent.value) == ns[..|ns| - 1]
                                && t[t[a].parent.value].post == t[a].post)
  {
    assert PlacedOk(t, a);
  }

  lemma SameParent(t: Table, a: nat, b: nat)
    requires Threaded(t) && a < |t| && b < |t| && t[a].post == t[b].post
    requires var xs, ys := Trail(t, a), Trail(t, b); xs[..|xs| - 1] == ys[..|ys| - 1]
    ensures Siblings(t, a, b)
  {
    hide Trail, Threaded;
    TrailEnds(t, a);
    TrailEnds(t, b);
    var xs, ys := Trail(t, a), Trail(t, b);
    assert |xs| - 1 == |xs[..|xs| - 1]| == |ys[..|ys| - 1]| == |ys| - 1;
    if |xs| > 1 {
      TrailUnique(t, t[a].parent.value, t[b].parent.value);
    }
  }

  /** Where two trails first differ, two siblings stand above the two comments. */
  lemma PartingSiblings(t: Table, i: nat, j: nat, k: nat) returns (a: nat, b: nat)
    requires Threaded(t) && i < |t| && j < |t| && t[i].post == t[j].post
    requires k < |Trail(t, i)| && k < |Trail(t, j)| && Trail(t, i)[..k] == Trail(t, j)[..k]
    ensures a < |t| && b < |t| && Siblings(t, a, b) && Above(t, a, i) && Above(t, b, j)
    ensures Ordinal(t[a].path) == Trail(t, i)[k] && Ordinal(t[b].path) == Trail(t, j)[k]
  {
    hide Trail, Threaded, Siblings, Above;
    a := AncestorAt(t, i, k + 1);
    b := AncestorAt(t, j, k + 1);
    var xs, ys := Trail(t, i), Trail(t, j);
    assert xs[..k + 1][..k] == xs[..k] && ys[..k + 1][..k] == ys[..k];
    TrailEnds(t, a);
    TrailEnds(t, b);
    SameParent(t, a, b);
  }

  lemma SiblingNumbers(t: Table, a: nat, b: nat)
    requires Threaded(t) && a < |t| && b < |t| && Siblings(t, a, b)
    ensures Ordinal(t[a].path) < Ordinal(t[b].path) <==> a < b
  {
    if a < b {
      SiblingsOrdered(t, a, b);
    } else if b < a {
      SiblingsOrdered(t, b, a);
    }
  }

  lemma SiblingsSeparate(t: Table, a: nat, b: nat, i: nat, j: nat)
    requires Threaded(t) && a < b < |t| && i < |t| && j < |t| && Siblings(t, a, b) && Above(t, a, i) && Above(t, b, j)
    ensures Less(Trail(t, i), Trail(t, j))
  {
    hide Trail, Threaded, Above;
    AboveExtends(t, a, i);
    AboveExtends(t, b, j);
    SiblingsOrdered(t, a, b);
    TrailEnds(t, a);
    TrailEnds(t, b);
    var xs, ys := Trail(t, a), Trail(t, b);
    var k := |xs| - 1;
    assert |ys| == |xs| && xs[..k] == ys[..k] && xs[k] < ys[k];
    var us, vs := Trail(t, i), Trail(t, j);
    assert us[..k] == xs[..k] && vs[..k] == ys[..k];
    assert us[k] == xs[k] && vs[k] == ys[k];
    DifferLess(us, vs, k);
  }

  /** Within a post, paths compare as texts exactly in tree preorder, siblings in creation order. */
  lemma PathOrderIsPreorder(t: Table, i: nat, j: nat)
    requires Threaded(t) && i < |t| && j < |t| && t[i].post == t[j].post
    ensures TextLess(t[i].path, t[j].path) <==> Precedes(t, i, j)
  {
    TrailsCompare(t, i, j);
    if Precedes(t, i, j) {
      if i != j && Above(t, i, j) {
        AboveExtends(t, i, j);
        PrefixLess(Trail(t, i), Trail(t, j));
      } else {
        var a: nat, b: nat :| a < b < |t| && Siblings(t, a, b) && Above(t, a, i) && Above(t, b, j);
        SiblingsSeparate(t, a, b, i, j);
      }
    }
    if Less(Trail(t, i), Trail(t, j)) {
      LessPrecedes(t, i, j);
    }
  }

  lemma {:induction false} LessNotPrefix(xs: seq<nat>, ys: seq<nat>)
    requires ys <= xs
    ensures !Less(xs, ys)
  {
    if ys == [] {
    } else {
      LessNotPrefix(xs[1..], ys[1..]);
    }
  }

  lemma LessPrecedes(t: Table, i: nat, j: nat)
    requires Threaded(t) && i < |t| && j < |t| && t[i].post == t[j].post && Less(Trail(t, i), Trail(t, j))
    ensures Precedes(t, i, j)
  {
    var xs, ys := Trail(t, i), Trail(t, j);
    var k := Parting(xs, ys);
    if k == |xs| {
      assert xs[..k] == xs;
      LessNotPrefix(xs, xs);
      PrefixIsAbove(t, i, j);
    } else if k == |ys| {
      assert ys[..k] == ys;
      LessNotPrefix(xs, ys);
    } else {
      DifferLess(xs, ys, k);
      var a, b := PartingSiblings(t, i, j, k);
      SiblingNumbers(t, a, b);
    }
  }

  // ----- the list that is shown

  predicate Shown(t: Table, post: nat, i: nat)
    requires i < |t|
  {
    t[i].post == post && t[i].visible
  }

  /** `get_comments_for_post`: the visible comments of a post, in the order of their paths. */
  predicate IsListing(t: Table, post: nat, ids: seq<nat>) {
    && (forall k | 0 <= k < |ids| :: ids[k] < |t| && Shown(t, post, ids[k]))
    && (forall i: nat | i < |t| && Shown(t, post, i) :: i in ids)
    && forall k, l | 0 <= k < l < |ids| :: TextLess(t[ids[k]].path, t[ids[l]].path)
  }

  /** Text order on the paths of one post is total and transitive. */
  lemma PathsTotal(t: Table, i: nat, j: nat)
    requires Threaded(t) && i < |t| && j < |t| && i != j && t[i].post == t[j].post
    ensures TextLess(t[i].path, t[j].path) || TextLess(t[j].path, t[i].path)
  {
    TrailsCompare(t, i, j);
    TrailsCompare(t, j, i);
    LessTotal(Trail(t, i), Trail(t, j));
    if Trail(t, i) == Trail(t, j) {
      TrailUnique(t, i, j);
    }
  }

  lemma {:induction false} TextTransitive(a: string, b: string, c: string)
    requires TextLess(a, b) && TextLess(b, c)
    ensures TextLess(a, c)
  {
    if a == "" || a[0] != b[0] || b[0] != c[0] {
    } else {
      TextTransitive(a[1..], b[1..], c[1..]);
    }
  }

  /** The comments among the first n that are shown, in the order of their paths. */
  predicate ListsFirst(t: Table, post: nat, n: nat, ids: seq<nat>)
    requires n <= |t|
  {
    && (forall k | 0 <= k < |ids| :: ids[k] < n && Shown(t, post, ids[k]))
    && (forall i: nat | i < n && Shown(t, post, i) :: i in ids)
    && forall k, l | 0 <= k < l < |ids| :: TextLess(t[ids[k]].path, t[ids[l]].path)
  }

  lemma {:induction false} SplitAt(t: Table, post: nat, ids: seq<nat>, x: nat) returns (p: nat)
    requires Threaded(t) && x < |t| && (forall k | 0 <= k < |ids| :: ids[k] < |t| && ids[k] != x && t[ids[k]].post == t[x].post)
    requires forall k, l | 0 <= k < l < |ids| :: TextLess(t[ids[k]].path, t[ids[l]].path)
    ensures p <= |ids|
    ensures forall k | 0 <= k < p :: TextLess(t[ids[k]].path, t[x].path)
    ensures forall k | p <= k < |ids| :: TextLess(t[x].path, t[ids[k]].path)
  {
    p := 0;
    while p < |ids| && TextLess(t[ids[p]].path, t[x].path)
      invariant p <= |ids|
      invariant forall k | 0 <= k < p :: TextLess(t[ids[k]].path, t[x].path)
    {
      p := p + 1;
    }
    forall k | p <= k < |ids| ensures TextLess(t[x].path, t[ids[k]].path) {
      PathsTotal(t, x, ids[p]);
      if p < k {
        TextTransitive(t[x].path, t[ids[p]].path, t[ids[k]].path);
      }
    }
  }

  lemma Inserted(t: Table, post: nat, n: nat, before: seq<nat>, p: nat)
    requires n < |t| && ListsFirst(t, post, n, before) && Shown(t, post, n) && p <= |before|
    requires forall k | 0 <= k < p :: TextLess(t[before[k]].path, t[n].path)
    requires forall k | p <= k < |before| :: TextLess(t[n].path, t[before[k]].path)
    ensures ListsFirst(t, post, n + 1, before[..p] + [n] + before[p..])
  {
    hide TextLess, Shown;
    var ids := before[..p] + [n] + before[p..];
    forall k | 0 <= k < |ids| ensures ids[k] < |t| && ids[k] == WovenAt(before, p, n, k) {
    }
    assert forall k | 0 <= k < |before| :: before[k] < n;
    InsertedOrder(t, before, ids, p, n);
    forall i: nat | i < n + 1 && Shown(t, post, i) ensures i in ids {
      if i < n {
        var k :| 0 <= k < |before| && before[k] == i;
        assert ids[if k < p then k else k + 1] == i;
      } else {
        assert ids[p] == n;
      }
    }
    forall k | 0 <= k < |ids| ensures ids[k] < n + 1 && Shown(t, post, ids[k]) {
      assert ids[k] == WovenAt(before, p, n, k);
    }
  }

  /** What stands at place k once n is put in at p. */
  function WovenAt(before: seq<nat>, p: nat, n: nat, k: nat): nat
    requires p <= |before| && k <= |before|
  {
    if k < p then before[k] else if k == p then n else before[k - 1]
  }

  lemma InsertedOrder(t: Table, before: seq<nat>, ids: seq<nat>, p: nat, n: nat)
    requires n < |t| && p <= |before| && |ids| == |before| + 1 && forall k | 0 <= k < |before| :: before[k] < n
    requires forall k | 0 <= k < |ids| :: ids[k] < |t| && ids[k] == WovenAt(before, p, n, k)
    requires forall k, l | 0 <= k < l < |before| :: TextLess(t[before[k]].path, t[before[l]].path)
    requires forall k | 0 <= k < p :: TextLess(t[before[k]].path, t[n].path)
    requires forall k | p <= k < |before| :: TextLess(t[n].path, t[before[k]].path)
    ensures forall k, l | 0 <= k < l < |ids| :: TextLess(t[ids[k]].path, t[ids[l]].path)
  {
    hide TextLess;
    forall k, l | 0 <= k < l < |ids| ensures TextLess(t[ids[k]].path, t[ids[l]].path) {
      assert ids[k] == WovenAt(before, p, n, k) && ids[l] == WovenAt(before, p, n, l);
    }
  }

  lemma {:induction false} FirstListed(t: Table, post: nat, n: nat) returns (ids: seq<nat>)
    requires Threaded(t) && n <= |t|
    ensures ListsFirst(t, post, n, ids)
  {
    hide Threaded, TextLess;
    if n == 0 {
      ids := [];
    } else {
      var before := FirstListed(t, post, n - 1);
      if Shown(t, post, n - 1) {
        var p := SplitAt(t, post, before, n - 1);
        ids := before[..p] + [n - 1] + before[p..];
        Inserted(t, post, n - 1, before, p);
      } else {
        ids := before;
      }
    }
  }

  /** There is always a listing. */
  lemma ListingExists(t: Table, post: nat)
    requires Threaded(t)
    ensures exists ids :: IsListing(t, post, ids)
  {
    var ids := FirstListed(t, post, |t|);
    assert IsListing(t, post, ids);
  }

  function Rows(t: Table, ids: seq<nat>): (list: seq<CommentTree.Listed>)
    requires forall k | 0 <= k < |ids| :: ids[k] < |t|
    ensures |list| == |ids|
  {
    seq(|ids|, k requires 0 <= k < |ids| => CommentTree.Listed(ids[k], t[ids[k]].parent))
  }

  lemma {:induction false} LessIrreflexive(xs: seq<nat>)
    ensures !Less(xs, xs)
  {
    if xs == [] {
    } else {
      LessIrreflexive(xs[1..]);
    }
  }

  lemma {:induction false} LessTransitive(xs: seq<nat>, ys: seq<nat>, zs: seq<nat>)
    requires Less(xs, ys) && Less(ys, zs)
    ensures Less(xs, zs)
  {
    if xs == [] || xs[0] != ys[0] || ys[0] != zs[0] {
    } else {
      LessTransitive(xs[1..], ys[1..], zs[1..]);
    }
  }

  /** What lies between a list and one of its extensions by one entry begins with that list. */
  lemma {:induction false} Between(xs: seq<nat>, ys: seq<nat>, n: nat)
    requires Less(xs, ys) && Less(ys, xs + [n])
    ensures xs <= ys && |xs| < |ys|
  {
    if xs == [] {
    } else {
      assert (xs + [n])[1..] == xs[1..] + [n];
      Between(xs[1..], ys[1..], n);
      assert xs == [xs[0]] + xs[1..] && ys == [ys[0]] + ys[1..];
    }
  }

  /** Positions in a listing compare as the trails do. */
  lemma ListingOrder(t: Table, post: nat, ids: seq<nat>, k: nat, l: nat)
    requires Threaded(t) && IsListing(t, post, ids) && k < |ids| && l < |ids|
    ensures Less(Trail(t, ids[k]), Trail(t, ids[l])) <==> k < l
    ensures ids[k] == ids[l] <==> k == l
  {
    var xs, ys := Trail(t, ids[k]), Trail(t, ids[l]);
    TrailsCompare(t, ids[k], ids[l]);
    TrailsCompare(t, ids[l], ids[k]);
    LessIrreflexive(xs);
    if l < k && Less(xs, ys) {
      LessTransitive(xs, ys, xs);
    }
  }

  lemma ParentTrail(t: Table, i: nat)
    requires Threaded(t) && i < |t| && t[i].parent.Some?
    ensures var p := t[i].parent.value;
      && p < i && t[p].post == t[i].post && Trail(t, i) == Trail(t, p) + [Ordinal(t[i].path)]
      && Less(Trail(t, p), Trail(t, i))
  {
    assert PlacedOk(t, i);
    PrefixLess(Trail(t, t[i].parent.value), Trail(t, i));
  }

  /** Between a comment and its reply the listing holds only comments below the first. */
  lemma BetweenReplies(t: Table, post: nat, ids: seq<nat>, i: nat, j: nat, k: nat) returns (p: nat)
    requires Threaded(t) && IsListing(t, post, ids) && i < j < k < |ids| && t[ids[k]].parent == Some(ids[i])
    ensures t[ids[j]].parent == Some(p) && p < |t| && (forall m | 0 <= m < |ids| && ids[m] == p :: i <= m < j)
  {
    var xs, ys := Trail(t, ids[i]), Trail(t, ids[j]);
    ListingOrder(t, post, ids, i, j);
    ListingOrder(t, post, ids, j, k);
    ParentTrail(t, ids[k]);
    Between(xs, ys, Ordinal(t[ids[k]].path));
    assert PlacedOk(t, ids[j]);
    assert t[ids[j]].parent.Some?;
    p := t[ids[j]].parent.value;
    ParentTrail(t, ids[j]);
    var qs := Trail(t, p);
    assert xs <= qs;
    forall m | 0 <= m < |ids| && ids[m] == p ensures i <= m < j {
      ListingOrder(t, post, ids, m, j);
      ListingOrder(t, post, ids, i, m);
      if |xs| == |qs| {
        TrailUnique(t, ids[i], p);
        ListingOrder(t, post, ids, i, m);
      } else {
        PrefixLess(xs, qs);
      }
    }
  }

  /** A listing is nested, so the laws of the rebuilt forest apply to it. */
  lemma ListingNested(t: Table, post: nat, ids: seq<nat>)
    requires Threaded(t) && IsListing(t, post, ids)
    ensures CommentTree.Nested(Rows(t, ids))
  {
    var list := Rows(t, ids);
    forall i, j | 0 <= i < j < |list| ensures list[i].id != list[j].id {
      ListingOrder(t, post, ids, i, j);
    }
    forall i, k | 0 <= i < |list| && 0 <= k < |list| && CommentTree.Replies(list, k, i) ensures i < k {
      ParentTrail(t, ids[k]);
      ListingOrder(t, post, ids, i, k);
    }
    forall i, j, k | 0 <= i < j < k < |list| && CommentTree.Replies(list, k, i)
      ensures CommentTree.Orphan(list, j) || exists m | i <= m < j :: CommentTree.Replies(list, j, m)
    {
      var p := BetweenReplies(t, post, ids, i, j, k);
      if m :| 0 <= m < |ids| && ids[m] == p {
        assert CommentTree.Replies(list, j, m);
      } else {
        assert CommentTree.Ids(list) == ids;
      }
    }
  }

  /** The visible comments of a post are closed under taking the parent. */
  predicate VisibleClosed(t: Table, post: nat) {
    forall i: nat | i < |t| && Shown(t, post, i) && t[i].parent.Some? ::
      t[i].parent.value < |t| && t[t[i].parent.value].visible
  }

  /**
   * The shown tree, after any requests: every listed comment once, and read in preorder exactly the
   * listing as long as no hidden comment has a visible reply.
   */
  lemma ShownTree(rs: seq<Request>, post: nat, ids: seq<nat>)
    requires IsListing(Run([], rs), post, ids)
    ensures var tree := CommentTree.Build(Rows(Run([], rs), ids));
      && multiset(CommentTree.Flatten(tree)) == multiset(ids)
      && (VisibleClosed(Run([], rs), post) ==> CommentTree.Flatten(tree) == ids)
  {
    var t := Run([], rs);
    RunThreaded([], rs);
    var list := Rows(t, ids);
    ListingNested(t, post, ids);
    CommentTree.EachPlacedOnce(list);
    assert CommentTree.Ids(list) == ids;
    if VisibleClosed(t, post) {
      forall k | 0 <= k < |list| ensures !CommentTree.Orphan(list, k) {
        if t[ids[k]].parent.Some? {
          ParentTrail(t, ids[k]);
          assert Shown(t, post, ids[k]) && Shown(t, post, t[ids[k]].parent.value);
        }
      }
      CommentTree.ClosedFlattens(list);
    }
  }
}
