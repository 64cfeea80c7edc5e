/**
 * Threaded conversations in the messaging app: each message may name a
 * parent message it replies to. The navigation the `Message` model offers
 * (depth, thread root, all messages of a thread in breadth-first order,
 * the participants, and the nested reply tree) is modelled over the
 * message table.
 */
module Threads {
  import opened Python
  import opened Extremes

  type MsgId = nat

  /** A row of the message table. Users are known by their (unique) usernames. */
  datatype Message = Message(sender: string, receiver: string, parent: Option<MsgId>, content: string,
                             timestamp: int, isRead: bool, edited: bool, lastEditedAt: Option<int>)

  /**
   * The message table: its rows by id, and the ids in the table's default
   * ordering (newest first), which is the order `replies.all()` lists them in.
   */
  datatype Table = Table(rows: map<MsgId, Message>, order: seq<MsgId>)

  /** The ordering lists every stored message exactly once. */
  ghost predicate Ordered(t: Table) {
    Distinct(t.order) && forall id :: id in t.order <==> id in t.rows
  }

  /**
   * Parent links lead to stored messages and never form a cycle: `rank`
   * (for instance the order of creation) is smaller for every parent than
   * for its reply, and below the number of messages.
   */
  ghost predicate Ranked(t: Table, rank: MsgId -> nat) {
    Ordered(t)
    && forall id :: id in t.rows ==>
      rank(id) < |t.order|
      && (t.rows[id].parent.Some? ==> t.rows[id].parent.value in t.rows && rank(t.rows[id].parent.value) < rank(id))
  }

  /** `is_thread_root`: the message replies to nothing. */
  predicate IsThreadRoot(t: Table, id: MsgId)
    requires id in t.rows
  {
    t.rows[id].parent.None?
  }

  /** The number of parent links from `id` up to its thread's root. */
  function Depth(t: Table, rank: MsgId -> nat, id: MsgId): (d: nat)
    requires Ranked(t, rank) && id in t.rows
    ensures d == 0 <==> IsThreadRoot(t, id)
    decreases rank(id)
  {
    if IsThreadRoot(t, id) then 0 else 1 + Depth(t, rank, t.rows[id].parent.value)
  }

  /** The message reached from `id` by following parent links to one with no parent. */
  function Root(t: Table, rank: MsgId -> nat, id: MsgId): (r: MsgId)
    requires Ranked(t, rank) && id in t.rows
    ensures r in t.rows && IsThreadRoot(t, r)
    decreases rank(id)
  {
    if IsThreadRoot(t, id) then id else Root(t, rank, t.rows[id].parent.value)
  }

  /** The message `k` parent links above `id`. */
  function Ancestor(t: Table, rank: MsgId -> nat, id: MsgId, k: nat): (a: MsgId)
    requires Ranked(t, rank) && id in t.rows && k <= Depth(t, rank, id)
    ensures a in t.rows
    decreases k
  {
    if k == 0 then id else Ancestor(t, rank, t.rows[id].parent.value, k - 1)
  }

  /** The root is exactly `thread_depth` parent links above a message. */
  lemma {:induction false} RootIsDepthAncestor(t: Table, rank: MsgId -> nat, id: MsgId)
    requires Ranked(t, rank) && id in t.rows
    ensures Root(t, rank, id) == Ancestor(t, rank, id, Depth(t, rank, id))
    decreases rank(id)
  {
    if !IsThreadRoot(t, id) {
      RootIsDepthAncestor(t, rank, t.rows[id].parent.value);
    }
  }

  /** `thread_depth`: counts the parent links while walking up to the root. */
  method ThreadDepth(t: Table, ghost rank: MsgId -> nat, id: MsgId) returns (depth: nat)
    requires Ranked(t, rank) && id in t.rows
    ensures depth == Depth(t, rank, id)
  {
    depth := 0;
    var current := id;
    while t.rows[current].parent.Some?
      invariant current in t.rows
      invariant depth + Depth(t, rank, current) == Depth(t, rank, id)
      decreases rank(current)
    {
      depth := depth + 1;
      current := t.rows[current].parent.value;
    }
  }

  /** `get_thread_root`: walks up the parent links to a message with no parent. */
  method GetThreadRoot(t: Table, ghost rank: MsgId -> nat, id: MsgId) returns (root: MsgId)
    requires Ranked(t, rank) && id in t.rows
    ensures root == Root(t, rank, id)
  {
    root := id;
    while t.rows[root].parent.Some?
      invariant root in t.rows
      invariant Root(t, rank, root) == Root(t, rank, id)
      decreases rank(root)
    {
      root := t.rows[root].parent.value;
    }
  }

  /** The ids among `ids` of stored messages replying to `id`, in the order of `ids`. */
  function RepliesIn(t: Table, ids: seq<MsgId>, id: MsgId): (rs: seq<MsgId>)
    ensures forall r :: r in rs <==> r in ids && r in t.rows && t.rows[r].parent == Some(id)
    ensures Distinct(ids) ==> Distinct(rs)
  {
    if ids == [] then []
    else
      var rest := RepliesIn(t, ids[1..], id);
      assert forall r :: r in ids[1..] ==> r in ids;
      if ids[0] in t.rows && t.rows[ids[0]].parent == Some(id) then [ids[0]] + rest else rest
  }

  /** `message.replies.all()`: the direct replies, in the table's ordering. */
  function Replies(t: Table, id: MsgId): (rs: seq<MsgId>)
    ensures forall r :: r in rs <==> r in t.order && r in t.rows && t.rows[r].parent == Some(id)
  {
    RepliesIn(t, t.order, id)
  }

  /** The messages of the thread whose root is `root`. */
  ghost function ThreadOf(t: Table, rank: MsgId -> nat, root: MsgId): set<MsgId>
    requires Ranked(t, rank)
  {
    set x | x in t.rows && Root(t, rank, x) == root
  }

  /** `Depth` as a function value, 0 for ids not in the table. */
  ghost function DepthOf(t: Table, rank: MsgId -> nat): MsgId -> nat
    requires Ranked(t, rank)
  {
    x => if x in t.rows then Depth(t, rank, x) else 0
  }

  /** A reply is one link deeper than, and in the same thread as, the message it answers. */
  lemma ReplyStep(t: Table, rank: MsgId -> nat, x: MsgId, r: MsgId)
    requires Ranked(t, rank) && x in t.rows && r in Replies(t, x)
    ensures r in ThreadOf(t, rank, Root(t, rank, x))
    ensures DepthOf(t, rank)(r) == DepthOf(t, rank)(x) + 1
  {
  }

  /** A set holding the root and every reply to its own members holds the whole thread. */
  lemma {:induction false} ClosedSetHoldsThread(t: Table, rank: MsgId -> nat, root: MsgId, s: set<MsgId>, x: MsgId)
    requires Ranked(t, rank) && root in s
    requires forall r :: r in t.rows && t.rows[r].parent.Some? && t.rows[r].parent.value in s ==> r in s
    requires x in t.rows && Root(t, rank, x) == root
    ensures x in s
    decreases rank(x)
  {
    if !IsThreadRoot(t, x) {
      ClosedSetHoldsThread(t, rank, root, s, t.rows[x].parent.value);
    }
  }

  /** `d` never decreases along `xs`. */
  ghost predicate SortedBy(d: MsgId -> nat, xs: seq<MsgId>) {
    forall i, j :: 0 <= i < j < |xs| ==> d(xs[i]) <= d(xs[j])
  }

  /** Appending an element no lower than anything before it keeps `xs` sorted by `d`. */
  lemma AppendKeepsSorted(d: MsgId -> nat, xs: seq<MsgId>, r: MsgId)
    requires SortedBy(d, xs)
    requires forall x :: x in xs ==> d(x) <= d(r)
    ensures SortedBy(d, xs + [r])
  {
    var ys := xs + [r];
    forall i, j | 0 <= i < j < |ys|
      ensures d(ys[i]) <= d(ys[j])
    {
      assert ys[i] == xs[i];
      if j < |xs| {
        assert ys[j] == xs[j];
      }
    }
  }

  /**
   * The inner loop of `get_thread_messages`: every reply of the message
   * just taken from the queue (at depth `level`) that was not seen yet is
   * marked seen and queued.
   */
  method EnqueueReplies(replies: seq<MsgId>, ghost members: set<MsgId>, ghost d: MsgId -> nat, ghost thread: seq<MsgId>,
                        ghost level: nat, checked0: set<MsgId>, queue0: seq<MsgId>)
    returns (checked: set<MsgId>, queue: seq<MsgId>)
    requires forall r :: r in replies ==> r in members && d(r) == level + 1
    requires Distinct(thread + queue0)
    requires forall x :: x in checked0 <==> x in thread || x in queue0
    requires checked0 <= members
    requires SortedBy(d, thread + queue0)
    requires forall x :: x in thread + queue0 ==> d(x) <= level + 1
    ensures forall x :: x in checked <==> x in thread || x in queue
    ensures checked0 <= checked <= members && forall r :: r in replies ==> r in checked
    ensures |queue| >= |queue0| && queue[..|queue0|] == queue0
    ensures forall x :: x in queue ==> x in queue0 || d(x) == level + 1
    ensures checked == checked0 ==> queue == queue0
    ensures Distinct(thread + queue)
    ensures SortedBy(d, thread + queue)
  {
    checked, queue := checked0, queue0;
    var k := 0;
    while k < |replies|
      invariant 0 <= k <= |replies|
      invariant forall x :: x in checked <==> x in thread || x in queue
      invariant checked0 <= checked <= members && forall j :: 0 <= j < k ==> replies[j] in checked
      invariant |queue| >= |queue0| && queue[..|queue0|] == queue0
      invariant forall x :: x in queue ==> x in queue0 || d(x) == level + 1
      invariant checked == checked0 ==> queue == queue0
      invariant Distinct(thread + queue)
      invariant SortedBy(d, thread + queue)
    {
      var reply := replies[k];
      if reply !in checked {
        assert forall x :: x in thread + queue ==> x in thread + queue0 || d(x) == level + 1;
        AppendKeepsSorted(d, thread + queue, reply);
        assert (thread + queue) + [reply] == thread + (queue + [reply]);
        checked := checked + {reply};
        queue := queue + [reply];
      }
      k := k + 1;
    }
  }

  /** A strict subset has fewer elements. */
  lemma StrictSubsetSmaller(a: set<MsgId>, b: set<MsgId>)
    requires a < b
    ensures |a| < |b|
  {
    var x :| x in b && x !in a;
    assert b == a + (b - a);
    assert x in b - a;
  }

  /** The elements of `xs`, as a set. */
  ghost function Elems(xs: seq<MsgId>): set<MsgId> {
    set x | x in xs
  }

  /**
   * The state of the walk of `get_thread_messages`: `thread` lists the
   * messages taken so far, `queue` those waiting and `checked` both; all
   * lie in `members`, and every reply of a taken message has been seen.
   */
  ghost predicate WalkState(t: Table, root: MsgId, members: set<MsgId>, d: MsgId -> nat,
                            thread: seq<MsgId>, checked: set<MsgId>, queue: seq<MsgId>)
  {
    (thread == [] ==> queue == [root])
    && (thread != [] ==> thread[0] == root)
    && (forall x :: x in checked <==> x in thread || x in queue)
    && checked <= members
    && Distinct(thread + queue)
    && (forall y, r :: y in thread && r in Replies(t, y) ==> r in checked)
    && SortedBy(d, thread + queue)
    && (queue != [] ==> forall x :: x in queue ==> d(x) <= d(queue[0]) + 1)
  }

  /** One turn of the walk: the head of the queue is taken and its unseen replies are queued. */
  method WalkStep(t: Table, ghost root: MsgId, ghost members: set<MsgId>, ghost d: MsgId -> nat,
                  thread0: seq<MsgId>, checked0: set<MsgId>, queue0: seq<MsgId>)
    returns (thread: seq<MsgId>, checked: set<MsgId>, queue: seq<MsgId>)
    requires forall x, r :: x in members && r in Replies(t, x) ==> r in members && d(r) == d(x) + 1
    requires WalkState(t, root, members, d, thread0, checked0, queue0) && queue0 != []
    ensures WalkState(t, root, members, d, thread, checked, queue)
    ensures thread == thread0 + [queue0[0]]
    ensures checked0 < checked || (checked == checked0 && |queue| < |queue0|)
    ensures checked <= members
  {
    var current := queue0[0];
    ghost var level := d(current);
    assert thread0 + queue0 == (thread0 + [current]) + queue0[1..];
    forall x | x in thread0
      ensures d(x) <= level
    {
      var j :| 0 <= j < |thread0| && thread0[j] == x;
      assert (thread0 + queue0)[j] == x && (thread0 + queue0)[|thread0|] == current;
    }
    queue := queue0[1..];
    thread := thread0 + [current];
    forall x | x in queue
      ensures level <= d(x)
    {
      var j :| 0 <= j < |queue| && queue[j] == x;
      assert (thread0 + queue0)[|thread0|] == current && (thread0 + queue0)[|thread| + j] == x;
    }
    assert current in checked0;
    var replies := Replies(t, current);
    checked, queue := EnqueueReplies(replies, members, d, thread, level, checked0, queue);
  }

  /** With the queue empty, the walk has listed `root` first and every reply of what it listed. */
  lemma WalkDone(t: Table, root: MsgId, members: set<MsgId>, d: MsgId -> nat, thread: seq<MsgId>, checked: set<MsgId>)
    requires WalkState(t, root, members, d, thread, checked, [])
    ensures thread != [] && thread[0] == root
    ensures Distinct(thread) && Elems(thread) <= members
    ensures forall y, r :: y in thread && r in Replies(t, y) ==> r in thread
    ensures SortedBy(d, thread)
  {
    assert thread + [] == thread;
  }

  /**
   * The walk of `get_thread_messages` from `root`: take the head of the
   * queue, append it to the result, and queue each of its replies not yet
   * seen. `members` is a set closed under replies and `d` rises by one from
   * a message to each of its replies.
   */
  method WalkReplies(t: Table, root: MsgId, ghost members: set<MsgId>, ghost d: MsgId -> nat) returns (thread: seq<MsgId>)
    requires root in members
    requires forall x, r :: x in members && r in Replies(t, x) ==> r in members && d(r) == d(x) + 1
    ensures thread != [] && thread[0] == root
    ensures Distinct(thread) && Elems(thread) <= members
    ensures forall y, r :: y in thread && r in Replies(t, y) ==> r in thread
    ensures SortedBy(d, thread)
  {
    thread := [];
    var checked := {root};
    var queue := [root];
    while queue != []
      invariant WalkState(t, root, members, d, thread, checked, queue)
      decreases |members - checked|, |queue|
    {
      var thread', checked', queue' := WalkStep(t, root, members, d, thread, checked, queue);
      if checked' != checked {
        StrictSubsetSmaller(members - checked', members - checked);
      }
      thread, checked, queue := thread', checked', queue';
    }
    WalkDone(t, root, members, d, thread, checked);
  }

  /**
   * `get_thread_messages`: a breadth-first walk over the replies, starting
   * at the thread's root, that lists each message of the thread exactly
   * once, shallower messages before deeper ones.
   */
  method GetThreadMessages(t: Table, ghost rank: MsgId -> nat, id: MsgId) returns (thread: seq<MsgId>)
    requires Ranked(t, rank) && id in t.rows
    ensures thread != [] && thread[0] == Root(t, rank, id)
    ensures Distinct(thread)
    ensures forall x :: x in thread <==> x in t.rows && Root(t, rank, x) == Root(t, rank, id)
    ensures SortedBy(DepthOf(t, rank), thread)
    ensures |thread| == |ThreadOf(t, rank, Root(t, rank, id))|
  {
    var root := GetThreadRoot(t, rank, id);
    ghost var members := ThreadOf(t, rank, root);
    forall x, r | x in members && r in Replies(t, x)
      ensures r in members && DepthOf(t, rank)(r) == DepthOf(t, rank)(x) + 1
    {
      ReplyStep(t, rank, x, r);
    }
    thread := WalkReplies(t, root, members, DepthOf(t, rank));
    forall r | r in t.rows && t.rows[r].parent.Some? && t.rows[r].parent.value in Elems(thread)
      ensures r in Elems(thread)
    {
      assert r in Replies(t, t.rows[r].parent.value);
    }
    forall x | x in t.rows && Root(t, rank, x) == root
      ensures x in thread
    {
      ClosedSetHoldsThread(t, rank, root, Elems(thread), x);
    }
    DistinctCardinality(thread, members);
  }

  /** Everyone who sent or received one of the messages `s`. */
  ghost function People(t: Table, s: set<MsgId>): set<string> {
    (set x | x in s && x in t.rows :: t.rows[x].sender) + (set x | x in s && x in t.rows :: t.rows[x].receiver)
  }

  /** Everyone who sent or received a message of the thread of `id`. */
  ghost function Participants(t: Table, rank: MsgId -> nat, id: MsgId): set<string>
    requires Ranked(t, rank) && id in t.rows
  {
    People(t, ThreadOf(t, rank, Root(t, rank, id)))
  }

  /** The loop of `get_conversation_participants`: the senders and receivers of `thread`, as a set. */
  method CollectPeople(t: Table, thread: seq<MsgId>) returns (participants: set<string>)
    requires forall x :: x in thread ==> x in t.rows
    ensures participants == People(t, Elems(thread))
  {
    participants := {};
    var i := 0;
    while i < |thread|
      invariant 0 <= i <= |thread|
      invariant participants == People(t, Elems(thread[..i]))
    {
      var m := t.rows[thread[i]];
      assert thread[..i + 1] == thread[..i] + [thread[i]];
      assert Elems(thread[..i + 1]) == Elems(thread[..i]) + {thread[i]};
      participants := participants + {m.sender, m.receiver};
      i := i + 1;
    }
    assert thread[..i] == thread;
  }

  /** `get_conversation_participants`: the senders and receivers of the thread's messages, as a set. */
  method GetConversationParticipants(t: Table, ghost rank: MsgId -> nat, id: MsgId) returns (participants: set<string>)
    requires Ranked(t, rank) && id in t.rows
    ensures participants == Participants(t, rank, id)
  {
    var thread := GetThreadMessages(t, rank, id);
    participants := CollectPeople(t, thread);
    assert Elems(thread) == ThreadOf(t, rank, Root(t, rank, id));
  }

  /** One node of `get_threaded_conversation`'s result: a message and the trees of its direct replies. */
  datatype ThreadNode = ThreadNode(message: MsgId, replies: seq<ThreadNode>)

  /** `build_thread(msg)`: the message with the trees of its replies, in the order of `replies.all()`. */
  function BuildThread(t: Table, rank: MsgId -> nat, id: MsgId): (n: ThreadNode)
    requires Ranked(t, rank) && id in t.rows
    ensures n.message == id && |n.replies| == |Replies(t, id)|
    ensures forall i :: 0 <= i < |n.replies| ==> n.replies[i].message == Replies(t, id)[i]
    decreases |t.order| - rank(id)
  {
    var rs := Replies(t, id);
    ThreadNode(id, seq(|rs|, i requires 0 <= i < |rs| => assert rs[i] in rs; BuildThread(t, rank, rs[i])))
  }

  /** `get_threaded_conversation(message_id)`: the tree of the whole thread, or None for an unknown id. */
  function GetThreadedConversation(t: Table, rank: MsgId -> nat, messageId: MsgId): (r: Option<ThreadNode>)
    requires Ranked(t, rank)
    ensures r.Some? <==> messageId in t.rows
    ensures r.Some? ==> r.value.message == Root(t, rank, messageId)
  {
    if messageId in t.rows then Some(BuildThread(t, rank, Root(t, rank, messageId))) else None
  }

  /** The messages of a reply tree. */
  function Members(n: ThreadNode): set<MsgId>
    decreases n
  {
    {n.message} + (set i, m | 0 <= i < |n.replies| && m in Members(n.replies[i]) :: m)
  }

  /** Every message of the tree built at `id` lies in the thread of `id`. */
  lemma {:induction false} TreeWithinThread(t: Table, rank: MsgId -> nat, id: MsgId)
    requires Ranked(t, rank) && id in t.rows
    ensures forall m :: m in Members(BuildThread(t, rank, id)) ==> m in t.rows && Root(t, rank, m) == Root(t, rank, id)
    decreases |t.order| - rank(id)
  {
    var n := BuildThread(t, rank, id);
    var rs := Replies(t, id);
    forall m | m in Members(n)
      ensures m in t.rows && Root(t, rank, m) == Root(t, rank, id)
    {
      if m != id {
        var i :| 0 <= i < |n.replies| && m in Members(n.replies[i]);
        assert rs[i] in rs;
        TreeWithinThread(t, rank, rs[i]);
      }
    }
  }

  /** A reply to a message of the tree is in the tree too. */
  lemma {:induction false} TreeHoldsReplies(t: Table, rank: MsgId -> nat, id: MsgId, p: MsgId, r: MsgId)
    requires Ranked(t, rank) && id in t.rows
    requires p in Members(BuildThread(t, rank, id)) && r in Replies(t, p)
    ensures r in Members(BuildThread(t, rank, id))
    decreases |t.order| - rank(id)
  {
    var n := BuildThread(t, rank, id);
    var rs := Replies(t, id);
    if p == id {
      var i :| 0 <= i < |rs| && rs[i] == r;
      assert r in Members(n.replies[i]);
    } else {
      var i :| 0 <= i < |n.replies| && p in Members(n.replies[i]);
      assert rs[i] in rs;
      TreeHoldsReplies(t, rank, rs[i], p, r);
    }
  }

  /** The tree of `get_threaded_conversation` holds exactly the messages of the thread. */
  lemma ThreadTreeIsThread(t: Table, rank: MsgId -> nat, messageId: MsgId)
    requires Ranked(t, rank) && messageId in t.rows
    ensures var root := Root(t, rank, messageId);
      Members(GetThreadedConversation(t, rank, messageId).value) == ThreadOf(t, rank, root)
  {
    var root := Root(t, rank, messageId);
    var tree := BuildThread(t, rank, root);
    TreeWithinThread(t, rank, root);
    forall r | r in t.rows && t.rows[r].parent.Some? && t.rows[r].parent.value in Members(tree)
      ensures r in Members(tree)
    {
      TreeHoldsReplies(t, rank, root, t.rows[r].parent.value, r);
    }
    forall x | x in t.rows && Root(t, rank, x) == root
      ensures x in Members(tree)
    {
      ClosedSetHoldsThread(t, rank, root, Members(tree), x);
    }
  }
}
