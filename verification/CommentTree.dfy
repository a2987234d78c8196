/** Rebuilding the forest of comments from the flat list of visible ones. */
module CommentTree {
  import opened Options

  /** Trees side by side: the first one's comment, its replies, and the trees after it. */
  datatype Forest = Nil | Node(id: nat, replies: Forest, next: Forest)

  /** What the loop reads of a listed comment. */
  datatype Listed = Listed(id: nat, parent: Option<nat>)

  function Flatten(f: Forest): seq<nat> {
    match f
    case Nil => []
    case Node(id, replies, next) => [id] + Flatten(replies) + Flatten(next)
  }

  function AppendRoot(f: Forest, id: nat): Forest {
    match f
    case Nil => Node(id, Nil, Nil)
    case Node(_, _, next) => f.(next := AppendRoot(next, id))
  }

  /** `parent["children"].append(node)`. */
  function AppendReply(f: Forest, parent: nat, id: nat): Forest {
    match f
    case Nil => Nil
    case Node(here, replies, next) =>
      if here == parent then f.(replies := AppendRoot(replies, id))
      else f.(replies := AppendReply(replies, parent, id), next := AppendReply(next, parent, id))
  }

  function Ids(list: seq<Listed>): (ids: seq<nat>)
    ensures |ids| == |list|
  {
    seq(|list|, i requires 0 <= i < |list| => list[i].id)
  }

  predicate Distinct(list: seq<Listed>) {
    forall i, j | 0 <= i < j < |list| :: list[i].id != list[j].id
  }

  /** The parent of a comment was listed before it. */
  predicate ParentSeen(list: seq<Listed>, k: nat)
    requires k < |list|
  {
    list[k].parent.Some? && list[k].parent.value in Ids(list)[..k]
  }

  function Build(list: seq<Listed>): Forest {
    if list == [] then Nil
    else
      var n := |list| - 1;
      var before := Build(list[..n]);
      if ParentSeen(list, n) then AppendReply(before, list[n].parent.value, list[n].id) else AppendRoot(before, list[n].id)
  }

  /** `get_comment_tree`: `seen` are the keys of the dictionary of nodes. */
  method GetCommentTree(list: seq<Listed>) returns (roots: Forest)
    ensures roots == Build(list)
  {
    var seen: set<nat> := {};
    roots := Nil;
    for k := 0 to |list|
      invariant roots == Build(list[..k])
      invariant forall id :: id in seen <==> id in Ids(list)[..k]
    {
      var c := list[k];
      assert list[..k + 1][..k] == list[..k] && Ids(list[..k + 1])[..k] == Ids(list)[..k];
      if c.parent.None? {
        roots := AppendRoot(roots, c.id);
      } else if c.parent.value !in seen {
        roots := AppendRoot(roots, c.id);
      } else {
        roots := AppendReply(roots, c.parent.value, c.id);
      }
      assert Ids(list)[..k + 1] == Ids(list)[..k] + [c.id];
      seen := seen + {c.id};
    }
    assert list[..|list|] == list;
  }

  // ----- every listed comment is placed once

  lemma {:induction false} AppendRootFlattens(f: Forest, id: nat)
    ensures Flatten(AppendRoot(f, id)) == Flatten(f) + [id]
  {
    if f.Nil? {
    } else {
      AppendRootFlattens(f.next, id);
      assert Flatten(AppendRoot(f, id)) == [f.id] + Flatten(f.replies) + (Flatten(f.next) + [id]);
    }
  }

  predicate NoRepeats(ids: seq<nat>) {
    forall i, j | 0 <= i < j < |ids| :: ids[i] != ids[j]
  }

  lemma {:induction false} AbsentParent(f: Forest, parent: nat, id: nat)
    requires parent !in Flatten(f)
    ensures AppendReply(f, parent, id) == f
  {
    if f.Nil? {
    } else {
      AbsentParent(f.replies, parent, id);
      AbsentParent(f.next, parent, id);
    }
  }

  lemma SplitRepeats(xs: seq<nat>, ys: seq<nat>)
    requires NoRepeats(xs + ys)
    ensures NoRepeats(xs) && NoRepeats(ys)
    ensures forall x | x in xs :: x !in ys
  {
    var all := xs + ys;
    assert forall i | 0 <= i < |xs| :: all[i] == xs[i];
    forall i, j | 0 <= i < j < |ys| ensures ys[i] != ys[j] {
      assert all[|xs| + i] == ys[i] && all[|xs| + j] == ys[j];
    }
    forall x | x in xs ensures x !in ys {
      var i :| 0 <= i < |xs| && xs[i] == x;
      forall j | 0 <= j < |ys| ensures ys[j] != x {
        assert all[i] == x && all[|xs| + j] == ys[j];
      }
    }
  }

  lemma Parts(f: Forest)
    requires f.Node? && NoRepeats(Flatten(f))
    ensures NoRepeats(Flatten(f.replies)) && NoRepeats(Flatten(f.next))
    ensures f.id !in Flatten(f.replies) && f.id !in Flatten(f.next)
    ensures forall x | x in Flatten(f.replies) :: x !in Flatten(f.next)
  {
    var a, b := Flatten(f.replies), Flatten(f.next);
    assert Flatten(f) == [f.id] + (a + b) == ([f.id] + a) + b;
    hide NoRepeats;
    SplitRepeats([f.id], a + b);
    SplitRepeats(a, b);
    assert f.id in [f.id];
  }

  /** In a forest without repeated ids a reply is added in exactly one place. */
  lemma AppendReplyAdds(f: Forest, parent: nat, id: nat)
    requires parent in Flatten(f) && NoRepeats(Flatten(f))
    ensures multiset(Flatten(AppendReply(f, parent, id))) == multiset(Flatten(f)) + multiset{id}
  {
    hide *;
    var t := ReplyInserted(f, parent, id);
    SplicedAdds(Flatten(f), t, id);
  }

  lemma SplicedAdds(s: seq<nat>, t: nat, id: nat)
    requires t <= |s|
    ensures multiset(Spliced(s, t, id)) == multiset(s) + multiset{id}
  {
    assert s == s[..t] + s[t..];
  }

  lemma {:induction false} RepeatFree(xs: seq<nat>, ys: seq<nat>)
    requires NoRepeats(xs) && multiset(xs) == multiset(ys)
    ensures NoRepeats(ys)
  {
    if i, j :| 0 <= i < j < |ys| && ys[i] == ys[j] {
      assert ys == ys[..i] + [ys[i]] + ys[i + 1..j] + [ys[j]] + ys[j + 1..];
      assert multiset(ys)[ys[i]] >= 2;
      OnceOnly(xs, ys[i]);
    }
  }

  lemma {:induction false} OnceOnly(xs: seq<nat>, x: nat)
    requires NoRepeats(xs)
    ensures multiset(xs)[x] <= 1
  {
    if xs == [] {
    } else {
      var front := xs[..|xs| - 1];
      assert xs == front + [xs[|xs| - 1]];
      OnceOnly(front, x);
      if x == xs[|xs| - 1] {
        assert x !in front;
      }
    }
  }

  lemma IdsFront(list: seq<Listed>)
    requires list != []
    ensures var n := |list| - 1;
      Ids(list[..n]) == Ids(list)[..n] && Ids(list) == Ids(list[..n]) + [list[n].id]
  {
  }

  lemma DistinctIds(list: seq<Listed>)
    requires Distinct(list)
    ensures NoRepeats(Ids(list)) && (list != [] ==> Distinct(list[..|list| - 1]))
  {
  }

  /** Placement: the forest holds every listed comment exactly once, whatever the list. */
  lemma {:induction false} EachPlacedOnce(list: seq<Listed>)
    requires Distinct(list)
    ensures multiset(Flatten(Build(list))) == multiset(Ids(list)) && NoRepeats(Flatten(Build(list)))
  {
    DistinctIds(list);
    hide Distinct, NoRepeats, Flatten, AppendReply, AppendRoot;
    if list != [] {
      var n := |list| - 1;
      var f := Build(list[..n]);
      EachPlacedOnce(list[..n]);
      IdsFront(list);
      if ParentSeen(list, n) {
        assert list[n].parent.value in multiset(Flatten(f));
        AppendReplyAdds(f, list[n].parent.value, list[n].id);
      } else {
        AppendRootFlattens(f, list[n].id);
      }
    } else {
      NothingPlaced();
    }
    RepeatFree(Ids(list), Flatten(Build(list)));
  }

  lemma NothingPlaced()
    ensures Flatten(Nil) == [] && Flatten(Build([])) == []
  {
  }

  // ----- when reading the forest in preorder gives the list back

  /** The path from the last root down to the comment placed last. */
  function Spine(f: Forest): seq<nat> {
    match f
    case Nil => []
    case Node(id, replies, next) => if next.Node? then Spine(next) else [id] + Spine(replies)
  }

  lemma {:induction false} SpineListed(f: Forest, x: nat)
    requires x in Spine(f)
    ensures x in Flatten(f)
  {
    if f.next.Node? {
      SpineListed(f.next, x);
    } else if x != f.id {
      SpineListed(f.replies, x);
    }
  }

  lemma {:induction false} RootSpine(f: Forest, id: nat)
    ensures Spine(AppendRoot(f, id)) == [id]
  {
    if f.Node? {
      RootSpine(f.next, id);
      assert AppendRoot(f.next, id).Node?;
    } else {
      assert Spine(Node(id, Nil, Nil)) == [id] + Spine(Nil);
    }
  }

  /** A reply to a comment on the spine goes to the very end of the preorder. */
  lemma {:induction false} SpineReply(f: Forest, above: seq<nat>, parent: nat, id: nat)
    requires NoRepeats(Flatten(f)) && above + [parent] <= Spine(f)
    ensures Flatten(AppendReply(f, parent, id)) == Flatten(f) + [id]
    ensures Spine(AppendReply(f, parent, id)) == above + [parent] + [id]
  {
    Parts(f);
    assert parent in Spine(f) by {
      assert Spine(f)[|above|] == parent;
    }
    var a, b := Flatten(f.replies), Flatten(f.next);
    hide NoRepeats;
    if f.next.Node? {
      SpineListed(f.next, parent);
      AbsentParent(f.replies, parent, id);
      SpineReply(f.next, above, parent, id);
      assert [f.id] + a + (b + [id]) == [f.id] + a + b + [id];
    } else if f.id == parent {
      if above != [] {
        assert (above + [parent])[1..] == above[1..] + [parent];
        assert Spine(f.replies)[|above| - 1] == parent;
        SpineListed(f.replies, parent);
        assert false;
      }
      AppendRootFlattens(f.replies, id);
      RootSpine(f.replies, id);
      assert [f.id] + (a + [id]) + b == [f.id] + a + b + [id];
    } else {
      assert (above + [parent])[0] == Spine(f)[0] == f.id;
      assert above != [] && above[0] == f.id;
      assert (above + [parent])[1..] == above[1..] + [parent];
      assert Spine(f)[1..] == Spine(f.replies);
      SpineListed(f.replies, parent);
      SpineReply(f.replies, above[1..], parent, id);
      assert [f.id] + (a + [id]) + b == [f.id] + a + b + [id];
      assert [f.id] + (above[1..] + [parent] + [id]) == above + [parent] + [id];
    }
  }

  /** Comment `k` replies to comment `i`. */
  predicate Replies(list: seq<Listed>, k: nat, i: nat)
    requires k < |list| && i < |list|
  {
    list[k].parent == Some(list[i].id)
  }

  /** Its parent exists but is not in the list. */
  predicate Orphan(list: seq<Listed>, k: nat)
    requires k < |list|
  {
    list[k].parent.Some? && list[k].parent.value !in Ids(list)
  }

  /**
   * What ordering by path gives: parents come before their replies, and everything listed between a
   * comment and one of its replies hangs below that comment, or has lost its own parent.
   */
  predicate Nested(list: seq<Listed>) {
    && Distinct(list)
    && (forall i, k | 0 <= i < |list| && 0 <= k < |list| && Replies(list, k, i) :: i < k)
    && forall i, j, k | 0 <= i < j < k < |list| && Replies(list, k, i) ::
         Orphan(list, j) || exists m | i <= m < j :: Replies(list, j, m)
  }

  /** No comment whose parent is missing is listed between a comment and one of its replies. */
  predicate NoOrphanInside(list: seq<Listed>) {
    forall i, j, k | 0 <= i < j < k < |list| && Replies(list, k, i) :: !Orphan(list, j)
  }

  /** The listed ancestors of a comment, and the comment itself. */
  function Chain(list: seq<Listed>, k: nat): (ids: seq<nat>)
    requires Nested(list) && k < |list|
    ensures ids != [] && ids[|ids| - 1] == list[k].id
  {
    if i: nat :| i < |list| && Replies(list, k, i) then Chain(list, i) + [list[k].id] else [list[k].id]
  }

  lemma ChainOfReply(list: seq<Listed>, k: nat, i: nat)
    requires Nested(list) && k < |list| && i < |list| && Replies(list, k, i)
    ensures Chain(list, k) == Chain(list, i) + [list[k].id]
  {
    assert forall m | 0 <= m < |list| && Replies(list, k, m) :: m == i;
  }

  /** While nothing has lost its parent in between, the chain of `i` stays on top. */
  lemma {:induction false} ChainStays(list: seq<Listed>, i: nat, j: nat, k: nat)
    requires Nested(list) && NoOrphanInside(list) && i <= j < k < |list| && Replies(list, k, i)
    ensures Chain(list, i) <= Chain(list, j)
    decreases j
  {
    if i == j {
    } else {
      assert !Orphan(list, j);
      var m :| i <= m < j && Replies(list, j, m);
      ChainOfReply(list, j, m);
      ChainStays(list, i, m, k);
    }
  }

  /** What `Build` does with the comment at `k`. */
  lemma BuildAt(list: seq<Listed>, k: nat)
    requires k < |list|
    ensures var f, c := Build(list[..k]), list[k];
      Build(list[..k + 1]) == if ParentSeen(list, k) then AppendReply(f, c.parent.value, c.id) else AppendRoot(f, c.id)
    ensures Ids(list)[..k + 1] == Ids(list)[..k] + [list[k].id] && Ids(list[..k]) == Ids(list)[..k]
  {
    assert list[..k + 1][..k] == list[..k] && Ids(list[..k + 1])[..k] == Ids(list)[..k];
  }

  lemma SeenIsReply(list: seq<Listed>, k: nat)
    requires Nested(list) && k < |list|
    ensures ParentSeen(list, k) <==> exists i: nat :: i < k && Replies(list, k, i)
  {
    if ParentSeen(list, k) {
      var i :| 0 <= i < k && Ids(list)[i] == list[k].parent.value;
      assert Replies(list, k, i);
    }
    if i: nat :| i < k && Replies(list, k, i) {
      assert Ids(list)[..k][i] == list[i].id;
    }
  }

  lemma ChainAlone(list: seq<Listed>, k: nat)
    requires Nested(list) && k < |list| && !ParentSeen(list, k)
    ensures Chain(list, k) == [list[k].id]
  {
    SeenIsReply(list, k);
    assert forall i: nat | i < |list| && Replies(list, k, i) :: i < k;
  }

  lemma ReplyOnSpine(list: seq<Listed>, i: nat, k: nat)
    requires Nested(list) && NoOrphanInside(list) && i < k < |list| && Replies(list, k, i)
    requires Spine(Build(list[..k])) == Chain(list, k - 1)
    ensures ParentSeen(list, k)
    ensures Flatten(Build(list[..k + 1])) == Flatten(Build(list[..k])) + [list[k].id]
    ensures Spine(Build(list[..k + 1])) == Chain(list, k)
  {
    SeenIsReply(list, k);
    BuildAt(list, k);
    ChainOfReply(list, k, i);
    ChainStays(list, i, k - 1, k);
    EachPlacedOnce(list[..k]);
    var chain := Chain(list, i);
    var above := chain[..|chain| - 1];
    assert above + [list[i].id] == chain;
    hide Nested, NoOrphanInside, Chain, Spine, Flatten, NoRepeats, Build;
    SpineReply(Build(list[..k]), above, list[i].id, list[k].id);
  }

  lemma RootOnSpine(list: seq<Listed>, k: nat)
    requires Nested(list) && k < |list| && !ParentSeen(list, k)
    ensures Flatten(Build(list[..k + 1])) == Flatten(Build(list[..k])) + [list[k].id]
    ensures Spine(Build(list[..k + 1])) == Chain(list, k)
  {
    BuildAt(list, k);
    ChainAlone(list, k);
    hide *;
    AppendRootFlattens(Build(list[..k]), list[k].id);
    RootSpine(Build(list[..k]), list[k].id);
  }

  lemma IdsNext(list: seq<Listed>, k: nat)
    requires k < |list|
    ensures |Ids(list)| == |list| && Ids(list)[..k + 1] == Ids(list)[..k] + [list[k].id]
  {
  }

  lemma {:induction false} BuiltInOrder(list: seq<Listed>, k: nat)
    requires Nested(list) && NoOrphanInside(list) && k < |list|
    ensures Spine(Build(list[..k + 1])) == Chain(list, k)
    ensures Flatten(Build(list[..k + 1])) == Ids(list)[..k + 1]
  {
    hide *;
    if k > 0 {
      BuiltInOrder(list, k - 1);
    } else {
      NothingPlaced();
      assert list[..0] == [] && Ids(list)[..0] == [];
    }
    IdsNext(list, k);
    SeenIsReply(list, k);
    if ParentSeen(list, k) {
      var i: nat :| i < k && Replies(list, k, i);
      ReplyOnSpine(list, i, k);
    } else {
      RootOnSpine(list, k);
    }
  }

  /** One comment stands before another. */
  predicate Ahead(ids: seq<nat>, x: nat, y: nat) {
    exists i, j | 0 <= i < j < |ids| :: ids[i] == x && ids[j] == y
  }

  /** The list with one more id at position t. */
  function Spliced(s: seq<nat>, t: nat, id: nat): seq<nat>
    requires t <= |s|
  {
    s[..t] + [id] + s[t..]
  }

  lemma SplicedWithin(a: seq<nat>, s: seq<nat>, b: seq<nat>, u: nat, id: nat)
    requires u <= |s|
    ensures a + Spliced(s, u, id) + b == Spliced(a + s + b, |a| + u, id)
  {
    var whole, t := a + s + b, |a| + u;
    assert whole[..t] == a + s[..u] && whole[t..] == s[u..] + b;
  }

  lemma SplicedLast(s: seq<nat>, id: nat)
    ensures Spliced(s, |s|, id) == s + [id]
  {
  }

  lemma InsertedInReplies(f: Forest, parent: nat, id: nat, u: nat)
    requires f.Node? && f.id != parent && AppendReply(f.next, parent, id) == f.next && u <= |Flatten(f.replies)|
    requires Flatten(AppendReply(f.replies, parent, id)) == Spliced(Flatten(f.replies), u, id)
    ensures Flatten(AppendReply(f, parent, id)) == Spliced(Flatten(f), 1 + u, id)
  {
    hide Spliced;
    SplicedWithin([f.id], Flatten(f.replies), Flatten(f.next), u, id);
  }

  lemma InsertedInNext(f: Forest, parent: nat, id: nat, u: nat)
    requires f.Node? && f.id != parent && AppendReply(f.replies, parent, id) == f.replies && u <= |Flatten(f.next)|
    requires Flatten(AppendReply(f.next, parent, id)) == Spliced(Flatten(f.next), u, id)
    ensures Flatten(AppendReply(f, parent, id)) == Spliced(Flatten(f), 1 + |Flatten(f.replies)| + u, id)
  {
    hide Spliced;
    var a, b := Flatten(f.replies), Flatten(f.next);
    SplicedWithin([f.id] + a, b, [], u, id);
    assert [f.id] + a + b + [] == Flatten(f);
    assert [f.id] + a + Spliced(b, u, id) + [] == [f.id] + a + Spliced(b, u, id);
  }

  lemma InsertedHere(f: Forest, id: nat)
    requires f.Node?
    ensures Flatten(AppendReply(f, f.id, id)) == Spliced(Flatten(f), 1 + |Flatten(f.replies)|, id)
  {
    hide Spliced;
    AppendRootFlattens(f.replies, id);
    SplicedLast(Flatten(f.replies), id);
    SplicedWithin([f.id], Flatten(f.replies), Flatten(f.next), |Flatten(f.replies)|, id);
  }

  lemma FlattenHolds(f: Forest, x: nat)
    requires x in Flatten(f)
    ensures f.Node? && (x == f.id || x in Flatten(f.replies) || x in Flatten(f.next))
    ensures |Flatten(f)| == 1 + |Flatten(f.replies)| + |Flatten(f.next)|
  {
  }

  /** Where a reply is inserted; the order of the others does not change. */
  lemma {:induction false} ReplyInserted(f: Forest, parent: nat, id: nat) returns (t: nat)
    requires parent in Flatten(f) && NoRepeats(Flatten(f))
    ensures t <= |Flatten(f)| && Flatten(AppendReply(f, parent, id)) == Spliced(Flatten(f), t, id)
  {
    hide *;
    FlattenHolds(f, parent);
    Parts(f);
    if f.id == parent {
      InsertedHere(f, id);
      t := 1 + |Flatten(f.replies)|;
    } else if parent in Flatten(f.replies) {
      var u := ReplyInserted(f.replies, parent, id);
      AbsentParent(f.next, parent, id);
      InsertedInReplies(f, parent, id, u);
      t := 1 + u;
    } else {
      AbsentParent(f.replies, parent, id);
      var u := ReplyInserted(f.next, parent, id);
      InsertedInNext(f, parent, id, u);
      t := 1 + |Flatten(f.replies)| + u;
    }
  }

  lemma AheadInserted(ids: seq<nat>, t: nat, id: nat, x: nat, y: nat)
    requires t <= |ids| && Ahead(ids, x, y)
    ensures Ahead(Spliced(ids, t, id), x, y)
  {
    var i, j :| 0 <= i < j < |ids| && ids[i] == x && ids[j] == y;
    var longer := Spliced(ids, t, id);
    var p, q := if i < t then i else i + 1, if j < t then j else j + 1;
    assert longer[p] == x && longer[q] == y;
  }

  /** Placing one more comment inserts it somewhere and leaves the others as they are. */
  lemma PlacedInserted(list: seq<Listed>) returns (t: nat)
    requires Distinct(list) && list != []
    ensures var flat := Flatten(Build(list[..|list| - 1]));
      t <= |flat| && Flatten(Build(list)) == Spliced(flat, t, list[|list| - 1].id)
  {
    var last := |list| - 1;
    var front := list[..last];
    var flat := Flatten(Build(front));
    EachPlacedOnce(front);
    hide Distinct, NoRepeats;
    if ParentSeen(list, last) {
      assert Ids(list)[..last] == Ids(front);
      assert list[last].parent.value in multiset(Ids(front));
      assert list[last].parent.value in multiset(flat);
      t := ReplyInserted(Build(front), list[last].parent.value, list[last].id);
    } else {
      AppendRootFlattens(Build(front), list[last].id);
      t := |flat|;
      SplicedLast(flat, list[last].id);
    }
  }

  lemma AheadStep(list: seq<Listed>, x: nat, y: nat)
    requires Distinct(list) && list != [] && Ahead(Flatten(Build(list[..|list| - 1])), x, y)
    ensures Ahead(Flatten(Build(list)), x, y)
  {
    var t := PlacedInserted(list);
    hide Build, Flatten, Ahead, Spliced;
    AheadInserted(Flatten(Build(list[..|list| - 1])), t, list[|list| - 1].id, x, y);
  }

  lemma {:induction false} AheadKept(list: seq<Listed>, n: nat, x: nat, y: nat)
    requires Distinct(list) && n <= |list| && Ahead(Flatten(Build(list[..n])), x, y)
    ensures Ahead(Flatten(Build(list)), x, y)
    decreases |list|
  {
    hide Ahead, Build;
    if n == |list| {
      assert list[..n] == list;
    } else {
      var front := list[..|list| - 1];
      assert front[..n] == list[..n];
      AheadKept(front, n, x, y);
      AheadStep(list, x, y);
    }
  }

  function Roots(f: Forest): seq<nat> {
    match f
    case Nil => []
    case Node(id, _, next) => [id] + Roots(next)
  }

  lemma {:induction false} RootsStay(f: Forest, parent: nat, id: nat)
    ensures Roots(AppendReply(f, parent, id)) == Roots(f)
    ensures Roots(AppendRoot(f, id)) == Roots(f) + [id]
  {
    if f.Nil? {
    } else {
      RootsStay(f.next, parent, id);
    }
  }

  /** A reply to a comment that stands before a root is inserted before that root. */
  lemma {:induction false} ReplyBeforeRoot(f: Forest, parent: nat, id: nat, root: nat)
    requires NoRepeats(Flatten(f)) && root in Roots(f) && parent != root && Ahead(Flatten(f), parent, root)
    ensures Ahead(Flatten(AppendReply(f, parent, id)), id, root)
  {
    Parts(f);
    RootListed(f, root);
    var a, b := Flatten(f.replies), Flatten(f.next);
    assert Flatten(f) == [f.id] + a + b;
    assert [f.id] + (a + b) == [f.id] + a + b;
    AheadFirst(f.id, a + b, parent, root);
    assert root in Roots(f.next);
    RootListed(f.next, root);
    if f.id == parent {
      AppendRootFlattens(f.replies, id);
      AheadAcross([f.id] + (a + [id]), b, id, root);
    } else if parent in a {
      AppendReplyAdds(f.replies, parent, id);
      AbsentParent(f.next, parent, id);
      var a1 := Flatten(AppendReply(f.replies, parent, id));
      assert id in multiset(a1);
      AheadAcross([f.id] + a1, b, id, root);
    } else {
      AbsentParent(f.replies, parent, id);
      AheadTail([f.id] + a, b, parent, root);
      ReplyBeforeRoot(f.next, parent, id, root);
      AheadPrefixed([f.id] + a, Flatten(AppendReply(f.next, parent, id)), id, root);
    }
  }

  lemma {:induction false} RootListed(f: Forest, root: nat)
    requires root in Roots(f)
    ensures root in Flatten(f)
  {
    if f.id == root {
    } else {
      RootListed(f.next, root);
    }
  }

  /** What comes first has nothing ahead of it. */
  lemma AheadFirst(first: nat, rest: seq<nat>, x: nat, y: nat)
    requires Ahead([first] + rest, x, y) && first !in rest
    ensures y != first
  {
  }

  lemma AheadAcross(a: seq<nat>, b: seq<nat>, x: nat, y: nat)
    requires x in a && y in b
    ensures Ahead(a + b, x, y)
  {
    var i :| 0 <= i < |a| && a[i] == x;
    var j :| 0 <= j < |b| && b[j] == y;
    assert (a + b)[i] == x && (a + b)[|a| + j] == y;
  }

  lemma AheadTail(a: seq<nat>, b: seq<nat>, x: nat, y: nat)
    requires Ahead(a + b, x, y) && x !in a
    ensures Ahead(b, x, y)
  {
    var i, j :| 0 <= i < j < |a + b| && (a + b)[i] == x && (a + b)[j] == y;
    assert i >= |a|;
    assert b[i - |a|] == x && b[j - |a|] == y;
  }

  lemma AheadPrefixed(a: seq<nat>, b: seq<nat>, x: nat, y: nat)
    requires Ahead(b, x, y)
    ensures Ahead(a + b, x, y)
  {
    var i, j :| 0 <= i < j < |b| && b[i] == x && b[j] == y;
    assert (a + b)[|a| + i] == x && (a + b)[|a| + j] == y;
  }

  /** A comment without a listed parent is a root from then on. */
  lemma {:induction false} RootFrom(list: seq<Listed>, j: nat, n: nat)
    requires j < n <= |list| && Orphan(list, j)
    ensures list[j].id in Roots(Build(list[..n]))
  {
    var front := list[..n - 1];
    assert list[..n][..n - 1] == front;
    var c := list[n - 1];
    RootsStay(Build(front), if c.parent.Some? then c.parent.value else 0, c.id);
    if j < n - 1 {
      RootFrom(list, j, n - 1);
    } else {
      assert list[j].parent.value !in Ids(list);
      assert forall x | x in Ids(list[..n]) :: x in Ids(list) by {
        assert Ids(list[..n]) == Ids(list)[..n];
      }
    }
  }

  lemma NotBothAhead(ids: seq<nat>, x: nat, y: nat)
    requires NoRepeats(ids) && Ahead(ids, x, y)
    ensures !Ahead(ids, y, x)
  {
  }

  lemma NestedDistinct(list: seq<Listed>, i: nat, j: nat)
    requires Nested(list) && i < j < |list|
    ensures Distinct(list) && list[i].id != list[j].id
  {
  }

  lemma DistinctFront(list: seq<Listed>, k: nat)
    requires Distinct(list) && k < |list|
    ensures Distinct(list[..k]) && |list[..k]| == k && k + 1 <= |list|
  {
  }

  lemma ReplyParent(list: seq<Listed>, k: nat, i: nat)
    requires Nested(list) && i < k < |list| && Replies(list, k, i)
    ensures ParentSeen(list, k) && list[k].parent == Some(list[i].id)
  {
    SeenIsReply(list, k);
  }

  /** An orphan between a comment and its reply: the reply is placed before the orphan. */
  lemma OrphanOvertaken(list: seq<Listed>, i: nat, j: nat, k: nat)
    requires Nested(list) && i < j < k < |list| && Replies(list, k, i) && Orphan(list, j)
    requires Ahead(Flatten(Build(list[..k])), list[i].id, list[j].id)
    ensures Ahead(Flatten(Build(list)), list[k].id, list[j].id)
  {
    hide *;
    NestedDistinct(list, i, j);
    ReplyParent(list, k, i);
    BuildAt(list, k);
    DistinctFront(list, k);
    EachPlacedOnce(list[..k]);
    RootFrom(list, j, k);
    ReplyBeforeRoot(Build(list[..k]), list[i].id, list[k].id, list[j].id);
    AheadKept(list, k + 1, list[k].id, list[j].id);
  }

  lemma BothPlaced(list: seq<Listed>, i: nat, j: nat)
    requires Distinct(list) && i < |list| && j < |list| && i != j
    ensures Ahead(Flatten(Build(list)), list[i].id, list[j].id) || Ahead(Flatten(Build(list)), list[j].id, list[i].id)
  {
    EachPlacedOnce(list);
    var flat := Flatten(Build(list));
    assert Ids(list)[i] == list[i].id && Ids(list)[j] == list[j].id;
    assert list[i].id in multiset(Ids(list)) && list[j].id in multiset(Ids(list));
    assert list[i].id in multiset(flat) && list[j].id in multiset(flat);
    var p :| 0 <= p < |flat| && flat[p] == list[i].id;
    var q :| 0 <= q < |flat| && flat[q] == list[j].id;
    hide Ahead;
    AheadEither(flat, p, q);
  }

  lemma AheadEither(ids: seq<nat>, p: nat, q: nat)
    requires p < |ids| && q < |ids| && p != q
    ensures Ahead(ids, ids[p], ids[q]) || Ahead(ids, ids[q], ids[p])
  {
  }

  /**
   * Reading the forest in preorder gives the list back exactly when no comment that lost its parent is
   * listed between a comment and one of its replies.
   */
  lemma FlattensExactly(list: seq<Listed>)
    requires Nested(list)
    ensures Flatten(Build(list)) == Ids(list) <==> NoOrphanInside(list)
  {
    if NoOrphanInside(list) {
      if list != [] {
        BuiltInOrder(list, |list| - 1);
        assert list[..|list|] == list && Ids(list)[..|list|] == Ids(list);
      }
    } else if Flatten(Build(list)) == Ids(list) {
      var i, j, k :| 0 <= i < j < k < |list| && Replies(list, k, i) && Orphan(list, j);
      OrphanMoves(list, i, j, k);
    }
  }

  lemma OrphanMoves(list: seq<Listed>, i: nat, j: nat, k: nat)
    requires Nested(list) && i < j < k < |list| && Replies(list, k, i) && Orphan(list, j)
    ensures Flatten(Build(list)) != Ids(list)
  {
    EachPlacedOnce(list);
    var flat, ids := Flatten(Build(list)), Ids(list);
    BothPlaced(list[..k], i, j);
    if flat == ids {
      assert Ahead(ids, list[i].id, list[j].id) && Ahead(ids, list[j].id, list[k].id) by {
        assert ids[i] == list[i].id && ids[j] == list[j].id && ids[k] == list[k].id;
      }
      if Ahead(Flatten(Build(list[..k])), list[i].id, list[j].id) {
        OrphanOvertaken(list, i, j, k);
        NotBothAhead(ids, list[j].id, list[k].id);
      } else {
        AheadKept(list, k, list[j].id, list[i].id);
        NotBothAhead(ids, list[i].id, list[j].id);
      }
    }
  }

  /** Reading the forest back gives the list when every listed comment's parent is listed as well. */
  lemma ClosedFlattens(list: seq<Listed>)
    requires Nested(list) && forall k | 0 <= k < |list| :: !Orphan(list, k)
    ensures Flatten(Build(list)) == Ids(list)
  {
    FlattensExactly(list);
  }

  /** Comments 0, its hidden reply 1, the reply 2 to that, and a second reply 3 to 0: 3 moves before 2. */
  lemma HiddenParentReorders()
    ensures var list := [Listed(0, None), Listed(2, Some(1)), Listed(3, Some(0))];
      Ids(list) == [0, 2, 3] && Flatten(Build(list)) == [0, 3, 2]
  {
    var list := [Listed(0, None), Listed(2, Some(1)), Listed(3, Some(0))];
    BuildAt(list, 0);
    BuildAt(list, 1);
    BuildAt(list, 2);
    assert Build(list[..0]) == Nil;
    assert Ids(list) == [0, 2, 3];
    assert !ParentSeen(list, 1) && Ids(list)[..2][0] == 0;
    assert list[..3] == list;
    assert Build(list) == Node(0, Node(3, Nil, Nil), Node(2, Nil, Nil));
  }
}
