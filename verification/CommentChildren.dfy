/** Who hangs below whom in the rebuilt forest. */
module CommentChildren {
  import opened Options
  import opened CommentTree

  /** The direct replies of a comment, in order. */
  function RepliesTo(f: Forest, x: nat): seq<nat> {
    match f
    case Nil => []
    case Node(id, replies, next) => if id == x then Roots(replies) else RepliesTo(replies, x) + RepliesTo(next, x)
  }

  /** The listed replies of a comment listed before them, in list order. */
  function ListedReplies(list: seq<Listed>, x: nat): seq<nat> {
    if list == [] then []
    else
      var n := |list| - 1;
      ListedReplies(list[..n], x) +
      if list[n].parent == Some(x) && x in Ids(list)[..n] then [list[n].id] else []
  }

  /** The listed comments that answer no comment listed before them. */
  function ListedRoots(list: seq<Listed>): seq<nat> {
    if list == [] then []
    else
      var n := |list| - 1;
      ListedRoots(list[..n]) +
      if list[n].parent.None? || list[n].parent.value !in Ids(list)[..n] then [list[n].id] else []
  }

  lemma {:induction false} AbsentReplies(f: Forest, x: nat)
    requires x !in Flatten(f)
    ensures RepliesTo(f, x) == []
  {
    if f.Nil? {
    } else {
      AbsentReplies(f.replies, x);
      AbsentReplies(f.next, x);
    }
  }

  lemma {:induction false} RootAdded(f: Forest, id: nat, x: nat)
    requires id !in Flatten(f)
    ensures RepliesTo(AppendRoot(f, id), x) == RepliesTo(f, x)
  {
    if f.Nil? {
      assert RepliesTo(Node(id, Nil, Nil), x) == [];
    } else {
      RootAdded(f.next, id, x);
    }
  }

  /** A reply is added to its parent's replies, at the end, and to nobody else's. */
  lemma {:induction false} ReplyAdded(f: Forest, parent: nat, id: nat, x: nat)
    requires NoRepeats(Flatten(f)) && parent in Flatten(f) && id !in Flatten(f)
    ensures RepliesTo(AppendReply(f, parent, id), x) == RepliesTo(f, x) + if x == parent then [id] else []
  {
    Parts(f);
    hide NoRepeats;
    if f.id == parent {
      RootsStay(f.replies, parent, id);
      RootAdded(f.replies, id, x);
      HereAdded(f, id, x);
    } else if parent in Flatten(f.replies) {
      ReplyAdded(f.replies, parent, id, x);
      AbsentParent(f.next, parent, id);
      AbsentReplies(f.next, parent);
      RootsStay(f.replies, parent, id);
      BelowAdded(f, parent, id, x);
    } else {
      AbsentParent(f.replies, parent, id);
      AbsentReplies(f.replies, parent);
      ReplyAdded(f.next, parent, id, x);
    }
  }

  lemma HereAdded(f: Forest, id: nat, x: nat)
    requires f.Node? && Roots(AppendRoot(f.replies, id)) == Roots(f.replies) + [id]
    requires RepliesTo(AppendRoot(f.replies, id), x) == RepliesTo(f.replies, x)
    ensures RepliesTo(AppendReply(f, f.id, id), x) == RepliesTo(f, x) + if x == f.id then [id] else []
  {
  }

  lemma BelowAdded(f: Forest, parent: nat, id: nat, x: nat)
    requires f.Node? && f.id != parent && AppendReply(f.next, parent, id) == f.next && RepliesTo(f.next, parent) == []
    requires Roots(AppendReply(f.replies, parent, id)) == Roots(f.replies)
    requires RepliesTo(AppendReply(f.replies, parent, id), x) ==
      RepliesTo(f.replies, x) + if x == parent then [id] else []
    ensures RepliesTo(AppendReply(f, parent, id), x) == RepliesTo(f, x) + if x == parent then [id] else []
  {
  }

  lemma PlacedFront(list: seq<Listed>)
    requires Distinct(list) && list != []
    ensures var n := |list| - 1;
      var f := Build(list[..n]);
      && Distinct(list[..n]) && NoRepeats(Flatten(f)) && list[n].id !in Flatten(f)
      && Ids(list)[..n] == Ids(list[..n]) && forall x :: x in Flatten(f) <==> x in Ids(list[..n])
  {
    var n := |list| - 1;
    var front := list[..n];
    EachPlacedOnce(front);
    hide Build, Flatten, NoRepeats;
    forall x: nat ensures x in Flatten(Build(front)) <==> x in Ids(front) {
      assert x in multiset(Flatten(Build(front))) <==> x in multiset(Ids(front));
    }
    forall i | 0 <= i < n ensures Ids(front)[i] != list[n].id {
      assert front[i] == list[i];
    }
  }

  /**
   * The forest is fixed by the list: below each comment stand exactly the listed comments that answer it,
   * and at the top those whose parent is not listed before them, both in list order.
   */
  lemma {:induction false} ChildrenExactly(list: seq<Listed>, x: nat)
    requires Distinct(list)
    ensures RepliesTo(Build(list), x) == ListedReplies(list, x)
    ensures Roots(Build(list)) == ListedRoots(list)
  {
    if list == [] {
    } else {
      var n := |list| - 1;
      PlacedFront(list);
      ChildrenExactly(list[..n], x);
      var f, c := Build(list[..n]), list[n];
      hide NoRepeats, Flatten, Distinct;
      if ParentSeen(list, n) {
        RootsStay(f, c.parent.value, c.id);
        ReplyAdded(f, c.parent.value, c.id, x);
      } else {
        RootsStay(f, 0, c.id);
        RootAdded(f, c.id, x);
      }
    }
  }
}
