/** The work-queue walk of `create_json`: the queue starts with the crate root's
    children; each step takes the head, appends all of its children to the tail,
    whatever the head's kind, and hands the head's definition on. */
module Traversal {
  import opened Analysis

  /** The definitions of the nodes of `q`, in order. */
  function DefsOf(q: seq<Node>): (r: seq<Def>)
    ensures |r| == |q|
    ensures forall i :: 0 <= i < |q| ==> r[i] == q[i].def
  {
    if q == [] then [] else [q[0].def] + DefsOf(q[1..])
  }

  /** The children of every node of `q`, node by node: the next level of a
      breadth-first walk. */
  function Kids(q: seq<Node>): seq<Node>
  {
    if q == [] then [] else q[0].children + Kids(q[1..])
  }

  lemma {:induction false} TotalKids(q: seq<Node>)
    ensures Total(Kids(q)) + |q| == Total(q)
  {
    if q != [] {
      TotalKids(q[1..]);
      TotalAppend(q[0].children, Kids(q[1..]));
    }
  }

  /** The definitions in the order the work queue dequeues them, starting from
      the queue `queue` and running until it is empty.  Every dequeued node
      contributes one definition, so the walk yields one per node in the trees. */
  function Dequeued(queue: seq<Node>): (r: seq<Def>)
    ensures |r| == Total(queue)
    decreases Total(queue)
  {
    if queue == [] then []
    else
      TotalAppend(queue[1..], queue[0].children);
      assert Total(queue) == 1 + Total(queue[0].children) + Total(queue[1..]);
      [queue[0].def] + Dequeued(queue[1..] + queue[0].children)
  }

  /** One dequeue: the head comes out, its children join the tail, and the
      queue's total size shrinks. */
  lemma DequeueStep(queue: seq<Node>)
    requires queue != []
    ensures Dequeued(queue) == [queue[0].def] + Dequeued(queue[1..] + queue[0].children)
    ensures Total(queue[1..] + queue[0].children) < Total(queue)
  {
    TotalAppend(queue[1..], queue[0].children);
  }

  /** Breadth-first order defined level by level, independently of any queue. */
  function LevelOrder(level: seq<Node>): seq<Def>
    decreases Total(level)
  {
    if level == [] then []
    else
      TotalKids(level);
      DefsOf(level) + LevelOrder(Kids(level))
  }

  /** Every definition of the tree rooted at `n`, root first (pre-order). */
  function Subtree(n: Node): seq<Def>
    decreases n
  {
    [n.def] + Forest(n.children)
  }

  /** Every definition of every tree in `q`. */
  function Forest(q: seq<Node>): seq<Def>
    decreases q
  {
    if q == [] then [] else Subtree(q[0]) + Forest(q[1..])
  }

  lemma {:induction false} ForestAppend(a: seq<Node>, b: seq<Node>)
    ensures Forest(a + b) == Forest(a) + Forest(b)
    decreases |a|
  {
    if a == [] {
      assert a + b == b;
    } else {
      assert (a + b)[0] == a[0];
      assert (a + b)[1..] == a[1..] + b;
      ForestAppend(a[1..], b);
    }
  }

  /** FIFO discipline: the nodes already in the queue come out first, in order,
      and then everything behind them followed by their children. */
  lemma {:induction false} DequeuedSplit(q: seq<Node>, rest: seq<Node>)
    ensures Dequeued(q + rest) == DefsOf(q) + Dequeued(rest + Kids(q))
    decreases |q|
  {
    if q == [] {
      assert q + rest == rest;
      assert rest + Kids(q) == rest;
    } else {
      var x := q[0];
      assert (q + rest)[0] == x;
      assert (q + rest)[1..] + x.children == q[1..] + (rest + x.children);
      DequeuedSplit(q[1..], rest + x.children);
      assert rest + x.children + Kids(q[1..]) == rest + Kids(q);
    }
  }

  /** The work queue visits nodes in breadth-first order. */
  lemma {:induction false} DequeuedIsLevelOrder(q: seq<Node>)
    ensures Dequeued(q) == LevelOrder(q)
    decreases Total(q)
  {
    if q != [] {
      DequeuedSplit(q, []);
      assert q + [] == q;
      assert [] + Kids(q) == Kids(q);
      TotalKids(q);
      DequeuedIsLevelOrder(Kids(q));
    }
  }

  /** Every definition in the trees of the queue is dequeued exactly as often
      as it occurs there: once per occurrence, none skipped, none repeated. */
  lemma {:induction false} DequeuedExactlyOnce(q: seq<Node>)
    ensures multiset(Dequeued(q)) == multiset(Forest(q))
    decreases Total(q)
  {
    if q != [] {
      var x := q[0];
      TotalAppend(q[1..], x.children);
      assert Total(q) == 1 + Total(x.children) + Total(q[1..]);
      DequeuedExactlyOnce(q[1..] + x.children);
      ForestAppend(q[1..], x.children);
    }
  }
}
