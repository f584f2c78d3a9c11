/**
 * The bounded reply-chain walk over NapCat messages.
 *
 * Starting from the ids a message replies to, the walk looks each id up at most once, first in
 * the local history and then through the message API, and follows the replies it finds down to
 * a depth bound.
 */
module ReplyChain {
  import opened Common
  import opened Ordering

  type MessageId = string

  /** What is known about messages: the local index, and the answer of the message API for every id. */
  datatype World = World(local: map<MessageId, seq<MessageId>>, api: MessageId -> Option<seq<MessageId>>) {
    /** The ids a message replies to, if its record can be resolved. */
    function Replies(id: MessageId): Option<seq<MessageId>> {
      if id in local then Some(local[id]) else api(id)
    }

    function Next(id: MessageId): seq<MessageId> {
      match Replies(id)
      case None => []
      case Some(ids) => ids
    }
  }

  datatype Pending = Pending(id: MessageId, depth: nat)

  function Elements(ids: seq<MessageId>): set<MessageId> {
    set id | id in ids
  }

  /** The ids within `n` replies of the start, never passing through `current`. */
  ghost function Within(world: World, start: seq<MessageId>, current: set<MessageId>, n: nat): set<MessageId> {
    if n == 0 then Elements(start) - current
    else
      var nearer := Within(world, start, current, n - 1);
      nearer + (set x, id | x in nearer && id in world.Next(x) :: id) - current
  }

  /** The size of the tree the walk would expand below an id without the visited set. */
  ghost function TreeSize(world: World, id: MessageId, depth: nat, maxDepth: nat): (size: nat)
    ensures size >= 1
    decreases maxDepth - depth, 1, 0
  {
    if depth >= maxDepth then 1 else 1 + ForestSize(world, world.Next(id), depth + 1, maxDepth)
  }

  ghost function ForestSize(world: World, ids: seq<MessageId>, depth: nat, maxDepth: nat): nat
    decreases maxDepth - depth, 2, |ids|
  {
    if ids == [] then 0 else TreeSize(world, ids[0], depth, maxDepth) + ForestSize(world, ids[1..], depth, maxDepth)
  }

  ghost function QueueSize(world: World, queue: seq<Pending>, maxDepth: nat): nat {
    if queue == [] then 0
    else TreeSize(world, queue[0].id, queue[0].depth, maxDepth) + QueueSize(world, queue[1..], maxDepth)
  }

  function AtDepth(ids: seq<MessageId>, depth: nat): seq<Pending> {
    seq(|ids|, i requires 0 <= i < |ids| => Pending(ids[i], depth))
  }

  lemma {:induction false} QueueSizeSplits(world: World, left: seq<Pending>, right: seq<Pending>, maxDepth: nat)
    ensures QueueSize(world, left + right, maxDepth) == QueueSize(world, left, maxDepth) + QueueSize(world, right, maxDepth)
  {
    if left == [] {
      assert left + right == right;
    } else {
      QueueSizeSplits(world, left[1..], right, maxDepth);
      assert (left + right)[1..] == left[1..] + right;
    }
  }

  lemma {:induction false} QueueSizeOfReplies(world: World, ids: seq<MessageId>, depth: nat, maxDepth: nat)
    ensures QueueSize(world, AtDepth(ids, depth), maxDepth) == ForestSize(world, ids, depth, maxDepth)
  {
    if ids != [] {
      QueueSizeOfReplies(world, ids[1..], depth, maxDepth);
      assert AtDepth(ids, depth)[1..] == AtDepth(ids[1..], depth);
    }
  }

  /** The walk as a state: what is queued, what was visited, and (for the proof) at which depth. */
  datatype Walk = Walk(queue: seq<Pending>, visited: set<MessageId>, depthOf: map<MessageId, nat>)

  /** Where a walk started and how deep it may go. */
  datatype Bounds = Bounds(start: seq<MessageId>, current: set<MessageId>, maxDepth: nat)

  ghost predicate Sorted(queue: seq<Pending>) {
    && (forall i, j :: 0 <= i < j < |queue| ==> queue[i].depth <= queue[j].depth)
    && (forall i :: 0 <= i < |queue| ==> queue[i].depth <= queue[0].depth + 1)
  }

  /** Every visited id was visited at its exact distance from the start. */
  ghost predicate ExactDepths(world: World, b: Bounds, w: Walk) {
    && w.visited == w.depthOf.Keys + b.current && w.depthOf.Keys !! b.current
    && forall x :: x in w.depthOf ==>
         && w.depthOf[x] < b.maxDepth
         && x in Within(world, b.start, b.current, w.depthOf[x])
         && forall k: nat :: k < w.depthOf[x] ==> x !in Within(world, b.start, b.current, k)
  }

  /** Queued ids are reachable at their depth, and lie behind everything visited. */
  ghost predicate QueueReachable(world: World, b: Bounds, w: Walk) {
    && (forall i :: 0 <= i < |w.queue| ==>
          w.queue[i].id in b.current || w.queue[i].id in Within(world, b.start, b.current, w.queue[i].depth))
    && (w.queue != [] ==> forall x :: x in w.depthOf ==> w.depthOf[x] <= w.queue[0].depth)
  }

  /** Nothing reachable was dropped: it is visited, still queued, or too deep. */
  ghost predicate NothingDropped(world: World, b: Bounds, w: Walk) {
    && (forall id :: id in b.start ==> id in w.visited || Pending(id, 0) in w.queue)
    && (forall x, id :: x in w.depthOf && id in world.Next(x) ==>
          id in w.visited || w.depthOf[x] + 1 >= b.maxDepth || Pending(id, w.depthOf[x] + 1) in w.queue)
  }

  ghost predicate Inv(world: World, b: Bounds, w: Walk) {
    Sorted(w.queue) && ExactDepths(world, b, w) && QueueReachable(world, b, w) && NothingDropped(world, b, w)
  }

  /** All ids nearer than the head of the queue have been visited. */
  lemma {:induction false} NearerVisited(world: World, b: Bounds, w: Walk, k: nat)
    requires Inv(world, b, w) && k < b.maxDepth
    requires w.queue == [] || k < w.queue[0].depth
    ensures Within(world, b.start, b.current, k) <= w.depthOf.Keys
  {
    forall x | x in Within(world, b.start, b.current, k)
      ensures x in w.depthOf
    {
      if k > 0 {
        NearerVisited(world, b, w, k - 1);
        var nearer := Within(world, b.start, b.current, k - 1);
        if x !in nearer {
          var y :| y in nearer && x in world.Next(y);
          assert w.depthOf[y] <= k - 1;
        }
      }
    }
  }

  lemma {:induction false} WithinBound(world: World, b: Bounds, n: nat)
    ensures Within(world, b.start, b.current, n) !! b.current
    ensures b.start == [] ==> Within(world, b.start, b.current, n) == {}
    ensures forall k: nat :: k <= n ==> Within(world, b.start, b.current, k) <= Within(world, b.start, b.current, n)
  {
    if n > 0 {
      WithinBound(world, b, n - 1);
    }
  }

  /** Dropping a queue entry that is too deep or already visited keeps the invariant. */
  lemma SkipKeepsInv(world: World, b: Bounds, w: Walk)
    requires Inv(world, b, w) && w.queue != [] && b.maxDepth >= 1
    requires w.queue[0].depth >= b.maxDepth || w.queue[0].id in w.visited
    ensures Inv(world, b, w.(queue := w.queue[1..]))
  {
    hide Sorted, NothingDropped, QueueReachable, Within;
    SkipDropsNothing(world, b, w);
    SkipReachable(world, b, w);
  }

  lemma SkipDropsNothing(world: World, b: Bounds, w: Walk)
    requires NothingDropped(world, b, w) && w.queue != [] && b.maxDepth >= 1
    requires w.queue[0].depth >= b.maxDepth || w.queue[0].id in w.visited
    ensures NothingDropped(world, b, w.(queue := w.queue[1..]))
  {
    assert forall p :: p in w.queue ==> p == w.queue[0] || p in w.queue[1..];
  }

  lemma SkipReachable(world: World, b: Bounds, w: Walk)
    requires Sorted(w.queue) && QueueReachable(world, b, w) && w.queue != []
    ensures Sorted(w.queue[1..]) && QueueReachable(world, b, w.(queue := w.queue[1..]))
  {
    hide Within;
  }

  function Visit(world: World, w: Walk): Walk
    requires w.queue != []
  {
    var head := w.queue[0];
    Walk(w.queue[1..] + AtDepth(world.Next(head.id), head.depth + 1), w.visited + {head.id},
         w.depthOf[head.id := head.depth])
  }

  lemma VisitKeepsInv(world: World, b: Bounds, w: Walk)
    requires Inv(world, b, w) && w.queue != []
    requires w.queue[0].depth < b.maxDepth && w.queue[0].id !in w.visited
    ensures Inv(world, b, Visit(world, w))
  {
    hide Sorted, NothingDropped, QueueReachable;
    VisitExact(world, b, w);
    VisitReachable(world, b, w);
    VisitDropsNothing(world, b, w);
  }

  lemma VisitExact(world: World, b: Bounds, w: Walk)
    requires Inv(world, b, w) && w.queue != []
    requires w.queue[0].depth < b.maxDepth && w.queue[0].id !in w.visited
    ensures ExactDepths(world, b, Visit(world, w))
  {
    var head := w.queue[0];
    forall k: nat | k < head.depth
      ensures head.id !in Within(world, b.start, b.current, k)
    {
      NearerVisited(world, b, w, k);
    }
  }

  lemma VisitReachable(world: World, b: Bounds, w: Walk)
    requires Inv(world, b, w) && w.queue != []
    requires w.queue[0].depth < b.maxDepth && w.queue[0].id !in w.visited
    ensures Sorted(Visit(world, w).queue) && QueueReachable(world, b, Visit(world, w))
  {
    hide NothingDropped, Within;
    var head := w.queue[0];
    var queue := Visit(world, w).queue;
    forall i | 0 <= i < |queue|
      ensures queue[i].id in b.current || queue[i].id in Within(world, b.start, b.current, queue[i].depth)
      ensures head.depth <= queue[i].depth <= head.depth + 1
    {
      QueuedAfterVisit(world, b, w, i);
    }
    VisitSorted(world, w);
  }

  lemma VisitSorted(world: World, w: Walk)
    requires Sorted(w.queue) && w.queue != []
    ensures Sorted(Visit(world, w).queue)
  {
    var head, rest := w.queue[0], w.queue[1..];
    var queue := Visit(world, w).queue;
    assert forall i :: 0 <= i < |rest| ==> queue[i] == w.queue[i + 1];
    assert forall i :: |rest| <= i < |queue| ==> queue[i].depth == head.depth + 1;
  }

  lemma QueuedAfterVisit(world: World, b: Bounds, w: Walk, i: nat)
    requires Inv(world, b, w) && w.queue != [] && i < |Visit(world, w).queue|
    requires w.queue[0].depth < b.maxDepth && w.queue[0].id !in w.visited
    ensures var entry := Visit(world, w).queue[i];
            && (entry.id in b.current || entry.id in Within(world, b.start, b.current, entry.depth))
            && w.queue[0].depth <= entry.depth <= w.queue[0].depth + 1
  {
    hide NothingDropped, ExactDepths;
    var head, rest := w.queue[0], w.queue[1..];
    var replies := world.Next(head.id);
    if i < |rest| {
      assert Visit(world, w).queue[i] == w.queue[i + 1];
    } else {
      assert Visit(world, w).queue[i] == Pending(replies[i - |rest|], head.depth + 1);
      assert replies[i - |rest|] in replies;
      HeadReachable(world, b, w);
    }
  }

  lemma HeadReachable(world: World, b: Bounds, w: Walk)
    requires Inv(world, b, w) && w.queue != [] && w.queue[0].id !in w.visited
    ensures w.queue[0].id in Within(world, b.start, b.current, w.queue[0].depth)
  {
    hide Within, NothingDropped, Sorted;
  }

  lemma VisitDropsNothing(world: World, b: Bounds, w: Walk)
    requires NothingDropped(world, b, w) && w.queue != [] && w.queue[0].id !in w.depthOf
    ensures NothingDropped(world, b, Visit(world, w))
  {
    hide AtDepth;
    var head, next := w.queue[0], Visit(world, w);
    QueueKept(world, w);
    forall x, id | x in next.depthOf && id in world.Next(x)
      ensures id in next.visited || next.depthOf[x] + 1 >= b.maxDepth || Pending(id, next.depthOf[x] + 1) in next.queue
    {
      if x != head.id {
        assert x in w.depthOf && next.depthOf[x] == w.depthOf[x];
      }
    }
  }

  lemma QueueKept(world: World, w: Walk)
    requires w.queue != []
    ensures forall p :: p in w.queue ==> p == w.queue[0] || p in Visit(world, w).queue
    ensures forall id :: id in world.Next(w.queue[0].id) ==> Pending(id, w.queue[0].depth + 1) in Visit(world, w).queue
  {
    var head, replies := w.queue[0], world.Next(w.queue[0].id);
    var added := AtDepth(replies, head.depth + 1);
    forall id | id in replies
      ensures Pending(id, head.depth + 1) in Visit(world, w).queue
    {
      var i :| 0 <= i < |replies| && replies[i] == id;
      assert added[i] in added;
    }
  }

  lemma FinishedWalk(world: World, b: Bounds, w: Walk)
    requires Inv(world, b, w) && w.queue == [] && b.maxDepth >= 1
    ensures w.depthOf.Keys == Within(world, b.start, b.current, b.maxDepth - 1)
  {
    NearerVisited(world, b, w, b.maxDepth - 1);
    WithinBound(world, b, b.maxDepth - 1);
  }

  function DepthLimit(option: Option<int>): (limit: nat)
    ensures limit >= 1
  {
    Max(1, if option.Some? then option.value else 10)
  }

  /** The ids whose shortest reply distance is below the bound. */
  ghost function Reached(world: World, b: Bounds): set<MessageId>
    requires b.maxDepth >= 1
  {
    Within(world, b.start, b.current, b.maxDepth - 1)
  }

  /** The API was asked once for every visited id outside the local history, and answers were filed correctly. */
  ghost predicate Filed(world: World, visited: set<MessageId>, found: Found) {
    && Distinct(found.lookups)
    && Elements(found.lookups) == (set id | id in visited && id !in world.local)
    && Distinct(found.resolved) && Distinct(found.errors)
    && Elements(found.resolved) == (set id | id in found.lookups && world.api(id).Some?)
    && Elements(found.errors) == (set id | id in found.lookups && world.api(id) == None)
  }

  /** The answers gathered so far. */
  datatype Found = Found(resolved: seq<MessageId>, errors: seq<MessageId>, lookups: seq<MessageId>)

  /** Finds the replies of an id, in the local history if possible. */
  method LookUp(world: World, id: MessageId, ghost processed: set<MessageId>, before: Found)
      returns (replies: seq<MessageId>, found: Found)
    requires id !in processed && Filed(world, processed, before)
    ensures replies == world.Next(id)
    ensures Filed(world, processed + {id}, found)
  {
    if id in world.local {
      return world.local[id], before;
    }
    assert id !in Elements(before.lookups);
    var lookups := before.lookups + [id];
    assert Elements(lookups) == Elements(before.lookups) + {id};
    match world.api(id) {
      case Some(ids) =>
        replies := ids;
        found := Found(before.resolved + [id], before.errors, lookups);
        assert Elements(found.resolved) == Elements(before.resolved) + {id};
      case None =>
        replies := [];
        found := Found(before.resolved, before.errors + [id], lookups);
        assert Elements(found.errors) == Elements(before.errors) + {id};
    }
  }

  lemma NothingFiled(world: World)
    ensures Filed(world, {}, Found([], [], []))
  {
  }

  predicate Skips(maxDepth: nat, w: Walk)
    requires w.queue != []
  {
    w.queue[0].depth >= maxDepth || w.queue[0].id in w.visited
  }

  function Step(world: World, maxDepth: nat, w: Walk): Walk
    requires w.queue != []
  {
    if Skips(maxDepth, w) then w.(queue := w.queue[1..]) else Visit(world, w)
  }

  /** Everything the walk visits, at its depth. */
  ghost function Run(world: World, maxDepth: nat, w: Walk): map<MessageId, nat>
    decreases QueueSize(world, w.queue, maxDepth)
  {
    if w.queue == [] then w.depthOf
    else
      QueueShrinks(world, w.queue, maxDepth);
      Run(world, maxDepth, Step(world, maxDepth, w))
  }

  lemma {:induction false} RunReaches(world: World, b: Bounds, w: Walk)
    requires Inv(world, b, w) && b.maxDepth >= 1
    ensures Run(world, b.maxDepth, w).Keys == Reached(world, b)
    decreases QueueSize(world, w.queue, b.maxDepth)
  {
    if w.queue == [] {
      FinishedWalk(world, b, w);
    } else {
      QueueShrinks(world, w.queue, b.maxDepth);
      if Skips(b.maxDepth, w) {
        SkipKeepsInv(world, b, w);
      } else {
        VisitKeepsInv(world, b, w);
      }
      RunReaches(world, b, Step(world, b.maxDepth, w));
    }
  }

  /** The queue loop.  The queue only shrinks by the tree below its head, so it ends whatever the branching. */
  method DrainQueue(world: World, start: seq<Pending>, current: set<MessageId>, maxDepth: nat)
      returns (found: Found, processed: set<MessageId>)
    ensures processed == Run(world, maxDepth, Walk(start, current, map[])).Keys
    ensures Filed(world, processed, found)
  {
    found, processed := Found([], [], []), {};
    NothingFiled(world);
    var queue, visited := start, current;
    ghost var depthOf: map<MessageId, nat> := map[];
    while queue != []
      invariant Run(world, maxDepth, Walk(start, current, map[])) == Run(world, maxDepth, Walk(queue, visited, depthOf))
      invariant processed == depthOf.Keys <= visited
      invariant Filed(world, processed, found)
      decreases QueueSize(world, queue, maxDepth)
    {
      QueueShrinks(world, queue, maxDepth);
      var next := queue[0];
      queue := queue[1..];
      if next.depth >= maxDepth || next.id in visited {
        continue;
      }
      visited := visited + {next.id};
      var replies;
      replies, found := LookUp(world, next.id, processed, found);
      processed := processed + {next.id};
      depthOf := depthOf[next.id := next.depth];
      queue := queue + AtDepth(replies, next.depth + 1);
    }
  }

  /** Resolves a reply chain: it processes exactly the ids nearer than the bound, and files every answer once. */
  method ResolveReplyChain(world: World, initialReplyIds: seq<MessageId>, currentMessageId: Option<MessageId>, depthOption: Option<int>)
      returns (found: Found, processed: set<MessageId>)
    ensures var current := if currentMessageId.Some? then {currentMessageId.value} else {};
            var limit: nat := if depthOption == None then 10 else if depthOption.value < 1 then 1 else depthOption.value;
            processed == Reached(world, Bounds(initialReplyIds, current, limit))
    ensures Filed(world, processed, found)
  {
    var maxDepth := DepthLimit(depthOption);
    var current := if currentMessageId.Some? then {currentMessageId.value} else {};
    ghost var b := Bounds(initialReplyIds, current, maxDepth);
    if |initialReplyIds| == 0 {
      WithinBound(world, b, maxDepth - 1);
      NothingFiled(world);
      return Found([], [], []), {};
    }
    StartKeepsInv(world, b);
    RunReaches(world, b, Walk(AtDepth(initialReplyIds, 0), current, map[]));
    found, processed := DrainQueue(world, AtDepth(initialReplyIds, 0), current, maxDepth);
  }

  lemma StartKeepsInv(world: World, b: Bounds)
    ensures Inv(world, b, Walk(AtDepth(b.start, 0), b.current, map[]))
  {
    forall id | id in b.start
      ensures Pending(id, 0) in AtDepth(b.start, 0)
    {
      var i :| 0 <= i < |b.start| && b.start[i] == id;
      assert AtDepth(b.start, 0)[i] == Pending(id, 0);
    }
  }

  /** The termination measure: replacing the head by its replies removes at least one tree node. */
  lemma QueueShrinks(world: World, queue: seq<Pending>, maxDepth: nat)
    requires queue != []
    ensures QueueSize(world, queue[1..], maxDepth) < QueueSize(world, queue, maxDepth)
    ensures queue[0].depth < maxDepth ==>
              QueueSize(world, queue[1..] + AtDepth(world.Next(queue[0].id), queue[0].depth + 1), maxDepth)
              < QueueSize(world, queue, maxDepth)
  {
    var added := AtDepth(world.Next(queue[0].id), queue[0].depth + 1);
    QueueSizeSplits(world, queue[1..], added, maxDepth);
    QueueSizeOfReplies(world, world.Next(queue[0].id), queue[0].depth + 1, maxDepth);
  }

  // ---- Distance along replies ----

  /** The message, found locally or else through the API, replies to this id. */
  ghost predicate RepliesTo(world: World, from: MessageId, to: MessageId) {
    if from in world.local then to in world.local[from] else world.api(from).Some? && to in world.api(from).value
  }

  /** A chain of replies from one of the start ids to the last id, never touching the current message. */
  ghost predicate Chain(world: World, b: Bounds, path: seq<MessageId>) {
    && path != [] && path[0] in b.start && (forall i :: 0 <= i < |path| ==> path[i] !in b.current)
    && forall i :: 0 < i < |path| ==> RepliesTo(world, path[i - 1], path[i])
  }

  lemma ChainExtends(world: World, b: Bounds, path: seq<MessageId>, id: MessageId)
    requires Chain(world, b, path) && RepliesTo(world, path[|path| - 1], id) && id !in b.current
    ensures Chain(world, b, path + [id])
  {
  }

  lemma {:induction false} WithinHasChain(world: World, b: Bounds, n: nat, id: MessageId) returns (path: seq<MessageId>)
    requires id in Within(world, b.start, b.current, n)
    ensures Chain(world, b, path) && |path| <= n + 1 && path[|path| - 1] == id
  {
    if n == 0 {
      path := [id];
    } else {
      var nearer := Within(world, b.start, b.current, n - 1);
      if id in nearer {
        path := WithinHasChain(world, b, n - 1, id);
      } else {
        var x :| x in nearer && id in world.Next(x);
        path := WithinHasChain(world, b, n - 1, x);
        WithinBound(world, b, n);
        ChainExtends(world, b, path, id);
        path := path + [id];
      }
    }
  }

  lemma {:induction false} ChainIsWithin(world: World, b: Bounds, path: seq<MessageId>)
    requires Chain(world, b, path)
    ensures path[|path| - 1] in Within(world, b.start, b.current, |path| - 1)
    decreases |path|
  {
    if |path| > 1 {
      var front := path[..|path| - 1];
      assert Chain(world, b, front);
      ChainIsWithin(world, b, front);
      assert path[|path| - 1] in world.Next(front[|front| - 1]);
    }
  }

  /** What the walk processes: the ids some chain of at most `maxDepth` messages leads to. */
  lemma ReachedIff(world: World, b: Bounds, id: MessageId)
    requires b.maxDepth >= 1
    ensures id in Reached(world, b) <==> exists path :: Chain(world, b, path) && |path| <= b.maxDepth && path[|path| - 1] == id
  {
    if id in Reached(world, b) {
      var path := WithinHasChain(world, b, b.maxDepth - 1, id);
    }
    if path :| Chain(world, b, path) && |path| <= b.maxDepth && path[|path| - 1] == id {
      ChainIsWithin(world, b, path);
      WithinBound(world, b, b.maxDepth - 1);
      WithinGrows(world, b, |path| - 1, b.maxDepth - 1);
    }
  }

  lemma WithinGrows(world: World, b: Bounds, k: nat, n: nat)
    requires k <= n
    ensures Within(world, b.start, b.current, k) <= Within(world, b.start, b.current, n)
  {
    WithinBound(world, b, n);
  }
}
