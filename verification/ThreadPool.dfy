/**
 ThreadPool before stop(): a bounded queue guarded by a mutex and two condition
 variables. A step is what one thread does from acquiring the mutex until it waits or
 lets go of it; condition variables may wake spuriously.
 */
module ThreadPools {
  import opened Basics

  type Thread = nat
  datatype Task = Task(id: nat)

  /** Where a thread stands: the first three are workers, the others producers. */
  datatype Place = Taking | AwaitsNotEmpty | Running | Posting | Reposting | AwaitsNotFull

  /**
   What a thread holds: the task a worker runs or a producer wants to post. turn is
   history: the number of the producer's call, or of the task among those taken.
   */
  datatype Status = Status(place: Place, task: Option<Task>, turn: nat)

  /**
   calls (the tasks with which post was called), posted, order (the numbers of the calls
   that posted them) and taken are history.
   */
  datatype Pool = Pool(
    maxQueueSize: int,
    queue: seq<Task>,
    threads: map<Thread, Status>,
    calls: seq<Task>,
    posted: seq<Task>,
    order: seq<nat>,
    taken: seq<Task>)

  predicate At(threads: map<Thread, Status>, t: Thread, place: Place) {
    t in threads && threads[t].place == place
  }

  function Standing(threads: map<Thread, Status>, place: Place): set<Thread> {
    set t | t in threads && threads[t].place == place
  }

  function Count(threads: map<Thread, Status>, place: Place): nat {
    |Standing(threads, place)|
  }

  function Workers(s: Pool): nat {
    Count(s.threads, Taking) + Count(s.threads, AwaitsNotEmpty) + Count(s.threads, Running)
  }

  function Producers(s: Pool): nat {
    Count(s.threads, Posting) + Count(s.threads, Reposting) + Count(s.threads, AwaitsNotFull)
  }

  function Started(maxQueueSize: int, workers: set<Thread>): Pool {
    Pool(maxQueueSize, [], map w | w in workers :: Status(Taking, None, 0), [], [], [], [])
  }

  // ------------------------------------------------------------------- steps

  function Moved(s: Pool, t: Thread, place: Place): Pool
    requires t in s.threads
  {
    s.(threads := s.threads[t := s.threads[t].(place := place)])
  }

  /** The loop guard in post for a new caller, the wait predicate for one woken up. */
  predicate MustWait(s: Pool, p: Thread)
    requires p in s.threads
  {
    if s.threads[p].place == Reposting then !(|s.queue| < s.maxQueueSize)
    else s.maxQueueSize > 0 && s.maxQueueSize == |s.queue|
  }

  /** notify_one wakes somebody who waits, if anybody does. */
  predicate MayNotify(threads: map<Thread, Status>, waiting: Place, notified: Option<Thread>) {
    match notified
    case None => Count(threads, waiting) == 0
    case Some(t) => At(threads, t, waiting)
  }

  function Notify(s: Pool, awake: Place, notified: Option<Thread>): Pool
    requires notified.Some? ==> notified.value in s.threads
  {
    if notified.None? then s else Moved(s, notified.value, awake)
  }

  predicate Poster(s: Pool, p: Thread) {
    (At(s.threads, p, Posting) || At(s.threads, p, Reposting)) && s.threads[p].task.Some?
  }

  /** post, from the point at which p holds the mutex. */
  function PostStep(s: Pool, p: Thread, notified: Option<Thread>): Pool
    requires Poster(s, p)
    requires !MustWait(s, p) ==> MayNotify(s.threads, AwaitsNotEmpty, notified)
  {
    if MustWait(s, p) then Moved(s, p, AwaitsNotFull) else
      var task := s.threads[p].task.value;
      Notify(s, Taking, notified).(
        queue := s.queue + [task],
        posted := s.posted + [task],
        order := s.order + [s.threads[p].turn],
        threads := Notify(s, Taking, notified).threads - {p})
  }

  /** take, from the point at which w holds the mutex. */
  function TakeStep(s: Pool, w: Thread, notified: Option<Thread>): Pool
    requires At(s.threads, w, Taking)
    requires s.queue != [] && s.maxQueueSize > 0 ==> MayNotify(s.threads, AwaitsNotFull, notified)
  {
    if s.queue == [] then Moved(s, w, AwaitsNotEmpty) else
      var woken := if s.maxQueueSize > 0 then Notify(s, Reposting, notified) else s;
      woken.(
        queue := s.queue[1..],
        taken := s.taken + [s.queue[0]],
        threads := woken.threads[w := Status(Running, Some(s.queue[0]), |s.taken|)])
  }

  datatype Event =
    | Arrives(p: Thread, task: Task)
    | Posts(p: Thread, notified: Option<Thread>)
    | Takes(w: Thread, notified: Option<Thread>)
    | Finishes(w: Thread)
    | Wakes(t: Thread)

  /** Producers are not workers: no task posts to the pool that runs it. */
  predicate Possible(s: Pool, e: Event) {
    match e
    case Arrives(p, _) => p !in s.threads
    case Posts(p, notified) =>
      Poster(s, p) && (!MustWait(s, p) ==> MayNotify(s.threads, AwaitsNotEmpty, notified))
    case Takes(w, notified) =>
      && At(s.threads, w, Taking)
      && (s.queue != [] && s.maxQueueSize > 0 ==> MayNotify(s.threads, AwaitsNotFull, notified))
    case Finishes(w) => At(s.threads, w, Running)
    case Wakes(t) => At(s.threads, t, AwaitsNotEmpty) || At(s.threads, t, AwaitsNotFull)
  }

  function Apply(s: Pool, e: Event): Pool
    requires Possible(s, e)
  {
    match e
    case Arrives(p, task) =>
      s.(threads := s.threads[p := Status(Posting, Some(task), |s.calls|)], calls := s.calls + [task])
    case Posts(p, notified) => PostStep(s, p, notified)
    case Takes(w, notified) => TakeStep(s, w, notified)
    case Finishes(w) => Moved(s, w, Taking)
    case Wakes(t) => Moved(s, t, if s.threads[t].place == AwaitsNotEmpty then Taking else Reposting)
  }

  // ----------------------------------------------------------------- counting

  lemma CountOfUpdate(threads: map<Thread, Status>, t: Thread, status: Status, place: Place)
    ensures Count(threads[t := status], place) ==
      Count(threads, place) - Bit(At(threads, t, place)) + Bit(status.place == place)
  {
    var before, after := Standing(threads, place), Standing(threads[t := status], place);
    assert after == if status.place == place then (before - {t}) + {t} else before - {t};
    assert before == if At(threads, t, place) then (before - {t}) + {t} else before - {t};
  }

  lemma CountOfRemoval(threads: map<Thread, Status>, t: Thread, place: Place)
    requires t in threads
    ensures Count(threads - {t}, place) == Count(threads, place) - Bit(At(threads, t, place))
  {
    var before, after := Standing(threads, place), Standing(threads - {t}, place);
    assert after == before - {t};
  }

  lemma CountIsPositive(threads: map<Thread, Status>, t: Thread, place: Place)
    requires At(threads, t, place)
    ensures Count(threads, place) > 0
  {
    assert t in Standing(threads, place);
  }

  lemma SomebodyThere(threads: map<Thread, Status>, place: Place) returns (t: Thread)
    requires Count(threads, place) > 0
    ensures At(threads, t, place)
  {
    t :| t in Standing(threads, place);
  }

  /** All six counts after one thread has moved. */
  lemma CountsOfUpdate(threads: map<Thread, Status>, t: Thread, status: Status)
    ensures forall place :: Count(threads[t := status], place) ==
                            Count(threads, place) - Bit(At(threads, t, place)) + Bit(status.place == place)
  {
    forall place { CountOfUpdate(threads, t, status, place); }
  }

  lemma CountsOfRemoval(threads: map<Thread, Status>, t: Thread)
    requires t in threads
    ensures forall place :: Count(threads - {t}, place) ==
                            Count(threads, place) - Bit(At(threads, t, place))
  {
    forall place { CountOfRemoval(threads, t, place); }
  }

  // --------------------------------------------------------------- invariant

  predicate ProducersHoldTasks(s: Pool) {
    forall t :: t in s.threads && s.threads[t].place in {Posting, Reposting, AwaitsNotFull} ==> s.threads[t].task.Some?
  }

  /** A worker sleeps un-notified only while awake workers cover the queue. */
  predicate WorkersSuffice(s: Pool) {
    Count(s.threads, AwaitsNotEmpty) > 0 ==> |s.queue| <= Count(s.threads, Taking)
  }

  /** A producer sleeps un-notified only while awake producers cover the free slots. */
  predicate ProducersSuffice(s: Pool) {
    Count(s.threads, AwaitsNotFull) + Count(s.threads, Reposting) > 0 ==>
      && s.maxQueueSize > 0
      && (Count(s.threads, AwaitsNotFull) > 0 ==>
            s.maxQueueSize - |s.queue| <= Count(s.threads, Posting) + Count(s.threads, Reposting))
  }

  predicate Bounded(s: Pool) {
    s.maxQueueSize > 0 ==> |s.queue| <= s.maxQueueSize
  }

  predicate Fifo(s: Pool) {
    s.posted == s.taken + s.queue
  }

  /** Every call of post has queued its task or still holds it. */
  predicate Accounted(s: Pool) {
    |s.calls| == |s.posted| + Producers(s)
  }

  predicate Sound(s: Pool) {
    ProducersHoldTasks(s) && WorkersSuffice(s) && ProducersSuffice(s) && Bounded(s) && Fifo(s) && Accounted(s)
  }

  lemma MoveKeeps(s: Pool, t: Thread, place: Place)
    requires Sound(s) && t in s.threads
    requires
      var from := s.threads[t].place;
      || (from == Posting && place == AwaitsNotFull && MustWait(s, t))
      || (from == Reposting && place == AwaitsNotFull && MustWait(s, t))
      || (from == Taking && place == AwaitsNotEmpty && s.queue == [])
      || (from == AwaitsNotEmpty && place == Taking)
      || (from == AwaitsNotFull && place == Reposting)
      || (from == Running && place == Taking)
    ensures Sound(Moved(s, t, place)) && Workers(Moved(s, t, place)) == Workers(s)
  {
    hide Count, Standing;
    CountsOfUpdate(s.threads, t, s.threads[t].(place := place));
    if s.threads[t].place == Reposting || s.threads[t].place == AwaitsNotFull {
      CountIsPositive(s.threads, t, s.threads[t].place);
    }
  }

  lemma PostKeeps(s: Pool, p: Thread, notified: Option<Thread>)
    requires Sound(s) && Possible(s, Posts(p, notified)) && !MustWait(s, p)
    ensures Sound(PostStep(s, p, notified)) && Workers(PostStep(s, p, notified)) == Workers(s)
  {
    hide Count, Standing;
    var woken := Notify(s, Taking, notified).threads;
    if notified.Some? {
      CountsOfUpdate(s.threads, notified.value, s.threads[notified.value].(place := Taking));
    }
    CountsOfRemoval(woken, p);
    if s.threads[p].place == Reposting {
      CountIsPositive(s.threads, p, Reposting);
    }
    var task := s.threads[p].task.value;
    assert s.taken + (s.queue + [task]) == s.posted + [task];
  }

  lemma TakeKeeps(s: Pool, w: Thread, notified: Option<Thread>)
    requires Sound(s) && Possible(s, Takes(w, notified)) && s.queue != []
    ensures Sound(TakeStep(s, w, notified)) && Workers(TakeStep(s, w, notified)) == Workers(s)
  {
    hide Count, Standing;
    var woken := if s.maxQueueSize > 0 then Notify(s, Reposting, notified) else s;
    if s.maxQueueSize > 0 && notified.Some? {
      CountsOfUpdate(s.threads, notified.value, s.threads[notified.value].(place := Reposting));
    }
    CountsOfUpdate(woken.threads, w, Status(Running, Some(s.queue[0]), |s.taken|));
    assert s.taken + s.queue == s.taken + [s.queue[0]] + s.queue[1..];
  }

  lemma ArrivalKeeps(s: Pool, p: Thread, task: Task)
    requires Sound(s) && p !in s.threads
    ensures Sound(Apply(s, Arrives(p, task))) && Workers(Apply(s, Arrives(p, task))) == Workers(s)
  {
    hide Count, Standing;
    CountsOfUpdate(s.threads, p, Status(Posting, Some(task), |s.calls|));
  }

  lemma SoundKept(s: Pool, e: Event)
    requires Sound(s) && Possible(s, e)
    ensures Sound(Apply(s, e)) && Workers(Apply(s, e)) == Workers(s)
    ensures Apply(s, e).maxQueueSize == s.maxQueueSize
    ensures s.posted <= Apply(s, e).posted && s.taken <= Apply(s, e).taken
  {
    hide Standing, Count, Sound, Workers;
    match e
    case Arrives(p, task) => ArrivalKeeps(s, p, task);
    case Posts(p, notified) => if MustWait(s, p) { MoveKeeps(s, p, AwaitsNotFull); } else { PostKeeps(s, p, notified); }
    case Takes(w, notified) => if s.queue == [] { MoveKeeps(s, w, AwaitsNotEmpty); } else { TakeKeeps(s, w, notified); }
    case Finishes(w) => MoveKeeps(s, w, Taking);
    case Wakes(t) => MoveKeeps(s, t, if s.threads[t].place == AwaitsNotEmpty then Taking else Reposting);
  }

  // ------------------------------------------------- whose task each task is

  predicate Producing(place: Place) {
    place == Posting || place == Reposting || place == AwaitsNotFull
  }

  /**
   Each posted task is that of a call, no call posts twice, and a producer holds the task
   of a call that has not posted yet, each producer another one.
   */
  predicate CallsTraced(s: Pool) {
    && |s.order| == |s.posted|
    && (forall i :: 0 <= i < |s.order| ==> s.order[i] < |s.calls| && s.posted[i] == s.calls[s.order[i]])
    && (forall i, j :: 0 <= i < j < |s.order| ==> s.order[i] != s.order[j])
    && (forall t :: t in s.threads && Producing(s.threads[t].place) ==>
          && s.threads[t].turn < |s.calls| && s.threads[t].task == Some(s.calls[s.threads[t].turn])
          && s.threads[t].turn !in s.order)
    && (forall t, u :: (t in s.threads && u in s.threads && t != u &&
                        Producing(s.threads[t].place) && Producing(s.threads[u].place)) ==>
          s.threads[t].turn != s.threads[u].turn)
  }

  /** A worker runs a task that was taken, and no two workers the same one. */
  predicate RunsTraced(s: Pool) {
    && (forall w :: w in s.threads && s.threads[w].place == Running ==>
          s.threads[w].turn < |s.taken| && s.threads[w].task == Some(s.taken[s.threads[w].turn]))
    && (forall w, v :: (w in s.threads && v in s.threads && w != v &&
                        s.threads[w].place == Running && s.threads[v].place == Running) ==>
          s.threads[w].turn != s.threads[v].turn)
  }

  lemma MoveTraced(s: Pool, t: Thread, place: Place)
    requires CallsTraced(s) && RunsTraced(s) && t in s.threads
    requires Producing(s.threads[t].place) <==> Producing(place)
    requires place != Running
    ensures CallsTraced(Moved(s, t, place)) && RunsTraced(Moved(s, t, place))
  {
  }

  lemma NotifyTraced(s: Pool, waiting: Place, awake: Place, notified: Option<Thread>)
    requires CallsTraced(s) && RunsTraced(s) && MayNotify(s.threads, waiting, notified)
    requires Producing(waiting) <==> Producing(awake)
    requires awake != Running
    ensures CallsTraced(Notify(s, awake, notified)) && RunsTraced(Notify(s, awake, notified))
  {
    if notified.Some? { MoveTraced(s, notified.value, awake); }
  }

  /** The pool after p has queued its task and left. */
  function Queued(s: Pool, p: Thread): Pool
    requires p in s.threads && s.threads[p].task.Some?
  {
    var task := s.threads[p].task.value;
    s.(queue := s.queue + [task], posted := s.posted + [task], order := s.order + [s.threads[p].turn],
       threads := s.threads - {p})
  }

  lemma QueuedTraced(s: Pool, p: Thread)
    requires CallsTraced(s) && RunsTraced(s) && p in s.threads && Producing(s.threads[p].place)
    ensures s.threads[p].task.Some? && CallsTraced(Queued(s, p)) && RunsTraced(Queued(s, p))
  {
    var d := Queued(s, p);
    forall t | t in d.threads && Producing(d.threads[t].place) ensures d.threads[t].turn !in d.order {
      assert t != p;
    }
  }

  lemma PostTraced(s: Pool, p: Thread, notified: Option<Thread>)
    requires CallsTraced(s) && RunsTraced(s) && Possible(s, Posts(p, notified)) && !MustWait(s, p)
    ensures CallsTraced(PostStep(s, p, notified)) && RunsTraced(PostStep(s, p, notified))
  {
    hide CallsTraced, RunsTraced, Count;
    NotifyTraced(s, AwaitsNotEmpty, Taking, notified);
    var woken := Notify(s, Taking, notified);
    assert woken.threads[p] == s.threads[p];
    QueuedTraced(woken, p);
    assert PostStep(s, p, notified) == Queued(woken, p);
  }

  /** The pool after w has taken the oldest task. */
  function Dequeued(s: Pool, w: Thread): Pool
    requires s.queue != []
  {
    s.(queue := s.queue[1..], taken := s.taken + [s.queue[0]],
       threads := s.threads[w := Status(Running, Some(s.queue[0]), |s.taken|)])
  }

  lemma DequeuedTraced(s: Pool, w: Thread)
    requires CallsTraced(s) && RunsTraced(s) && At(s.threads, w, Taking) && s.queue != []
    ensures CallsTraced(Dequeued(s, w)) && RunsTraced(Dequeued(s, w))
  {
  }

  lemma TakeTraced(s: Pool, w: Thread, notified: Option<Thread>)
    requires CallsTraced(s) && RunsTraced(s) && Possible(s, Takes(w, notified)) && s.queue != []
    ensures CallsTraced(TakeStep(s, w, notified)) && RunsTraced(TakeStep(s, w, notified))
  {
    hide CallsTraced, RunsTraced, Count;
    var woken := if s.maxQueueSize > 0 then Notify(s, Reposting, notified) else s;
    if s.maxQueueSize > 0 { NotifyTraced(s, AwaitsNotFull, Reposting, notified); }
    DequeuedTraced(woken, w);
    assert TakeStep(s, w, notified) == Dequeued(woken, w);
  }

  lemma ArrivalTraced(s: Pool, p: Thread, task: Task)
    requires CallsTraced(s) && RunsTraced(s) && p !in s.threads
    ensures CallsTraced(Apply(s, Arrives(p, task))) && RunsTraced(Apply(s, Arrives(p, task)))
  {
    var t := Apply(s, Arrives(p, task));
    assert |s.calls| !in s.order;
    forall i | 0 <= i < |t.order| ensures t.order[i] < |t.calls| && t.posted[i] == t.calls[t.order[i]] {
      assert s.order[i] < |s.calls|;
    }
  }

  lemma TracedKept(s: Pool, e: Event)
    requires CallsTraced(s) && RunsTraced(s) && Possible(s, e)
    ensures CallsTraced(Apply(s, e)) && RunsTraced(Apply(s, e))
    ensures s.calls <= Apply(s, e).calls && s.order <= Apply(s, e).order
  {
    hide CallsTraced, RunsTraced, Count;
    match e
    case Arrives(p, task) => ArrivalTraced(s, p, task);
    case Posts(p, notified) =>
      if MustWait(s, p) { MoveTraced(s, p, AwaitsNotFull); } else { PostTraced(s, p, notified); }
    case Takes(w, notified) =>
      if s.queue == [] { MoveTraced(s, w, AwaitsNotEmpty); } else { TakeTraced(s, w, notified); }
    case Finishes(w) => MoveTraced(s, w, Taking);
    case Wakes(t) => MoveTraced(s, t, if s.threads[t].place == AwaitsNotEmpty then Taking else Reposting);
  }

  lemma StartedTraced(maxQueueSize: int, workers: set<Thread>)
    ensures CallsTraced(Started(maxQueueSize, workers)) && RunsTraced(Started(maxQueueSize, workers))
  {
  }

  /** Distinct numbers below their own count are all the numbers below it. */
  lemma {:induction false} AllNumbers(order: seq<nat>, n: nat, i: nat)
    requires |order| == n && i < n
    requires forall k :: 0 <= k < n ==> order[k] < n
    requires forall k, l :: 0 <= k < l < n ==> order[k] != order[l]
    ensures i in order
  {
    var found := Elements(order);
    CountElements(order);
    assert found <= Below(n);
    if i !in order {
      FewerElements(found, Below(n) - {i});
    }
  }

  function Elements(order: seq<nat>): set<nat> {
    set k | k in order
  }

  lemma {:induction false} CountElements(order: seq<nat>)
    requires forall k, l :: 0 <= k < l < |order| ==> order[k] != order[l]
    ensures |Elements(order)| == |order|
  {
    if order != [] {
      var init, last := order[..|order| - 1], order[|order| - 1];
      CountElements(init);
      assert last !in init;
      assert Elements(order) == Elements(init) + {last};
    }
  }

  function Below(n: nat): (s: set<nat>)
    ensures |s| == n && forall k: nat :: k in s <==> k < n
  {
    if n == 0 then {} else Below(n - 1) + {n - 1}
  }

  lemma {:induction false} FewerElements(a: set<nat>, b: set<nat>)
    requires a <= b
    ensures |a| <= |b|
  {
    if a != {} {
      var x :| x in a;
      FewerElements(a - {x}, b - {x});
    }
  }

  // ------------------------------------------------------- no lost wake-up

  /** Every thread waits for a notification or has nothing to do with the pool. */
  predicate AllAsleep(s: Pool) {
    forall t :: t in s.threads ==> s.threads[t].place == AwaitsNotEmpty || s.threads[t].place == AwaitsNotFull
  }

  lemma NobodyThere(s: Pool, place: Place)
    ensures (forall t :: t in s.threads ==> s.threads[t].place != place) <==> Count(s.threads, place) == 0
  {
    if Count(s.threads, place) > 0 {
      var t := SomebodyThere(s.threads, place);
    }
    if t :| t in s.threads && s.threads[t].place == place {
      CountIsPositive(s.threads, t, place);
    }
  }

  /** The task of every call of post has been taken, and no producer waits. */
  predicate Idle(s: Pool) {
    && s.queue == [] && s.taken == s.posted && |s.taken| == |s.calls|
    && forall t :: t in s.threads ==> s.threads[t].place == AwaitsNotEmpty
  }

  /**
   With a worker at all, everybody is asleep only when there is nothing to do: no task
   queued, no producer blocked, and every task ever handed to post has been taken, in order.
   */
  lemma NoLostWakeup(s: Pool)
    requires Sound(s) && Workers(s) > 0 && AllAsleep(s)
    ensures Idle(s)
  {
    hide Count, Standing;
    NobodyThere(s, Taking);
    NobodyThere(s, Running);
    NobodyThere(s, Posting);
    NobodyThere(s, Reposting);
    assert Count(s.threads, AwaitsNotEmpty) > 0;
    NobodyThere(s, AwaitsNotFull);
    assert s.taken + [] == s.taken;
  }

  // -------------------------------------------------------------------- runs

  ghost predicate Legal(s: Pool, es: seq<Event>)
    decreases |es|
  {
    es == [] || (Possible(s, es[0]) && Legal(Apply(s, es[0]), es[1..]))
  }

  ghost function Run(s: Pool, es: seq<Event>): Pool
    requires Legal(s, es)
    decreases |es|
  {
    if es == [] then s else Run(Apply(s, es[0]), es[1..])
  }

  /** The monitor invariant, over every interleaving of any number of threads. */
  lemma {:induction false} RunsAreSound(s: Pool, es: seq<Event>)
    requires Sound(s) && Legal(s, es)
    ensures Sound(Run(s, es)) && Workers(Run(s, es)) == Workers(s)
    ensures Run(s, es).maxQueueSize == s.maxQueueSize
    ensures s.taken <= Run(s, es).taken && s.posted <= Run(s, es).posted
    decreases |es|
  {
    hide Sound, Possible, Apply, Workers;
    if es != [] {
      SoundKept(s, es[0]);
      RunsAreSound(Apply(s, es[0]), es[1..]);
    }
  }

  /** The tasks with which post is called along a run. */
  function Arriving(es: seq<Event>): seq<Task> {
    if es == [] then [] else (if es[0].Arrives? then [es[0].task] else []) + Arriving(es[1..])
  }

  lemma CallsOfStep(s: Pool, e: Event)
    requires Possible(s, e)
    ensures Apply(s, e).calls == s.calls + Arriving([e])
  {
    assert [e][1..] == [];
    assert s.calls + ([] + []) == s.calls;
    if e.Arrives? { assert s.calls + ([e.task] + []) == s.calls + [e.task]; }
  }

  /** Every task keeps its identity over every interleaving. */
  lemma {:induction false} RunsAreTraced(s: Pool, es: seq<Event>)
    requires CallsTraced(s) && RunsTraced(s) && Legal(s, es)
    ensures CallsTraced(Run(s, es)) && RunsTraced(Run(s, es))
    ensures Run(s, es).calls == s.calls + Arriving(es)
    decreases |es|
  {
    hide CallsTraced, RunsTraced, Possible, Apply;
    if es != [] {
      CallsOfStep(s, es[0]);
      TracedKept(s, es[0]);
      assert [es[0]][1..] == [];
      assert s.calls + Arriving([es[0]]) + Arriving(es[1..]) == s.calls + Arriving(es);
      RunsAreTraced(Apply(s, es[0]), es[1..]);
    }
  }

  /**
   From start() on, under every interleaving: the calls are those made, in their order; the
   k-th task taken is that of call order[k],
   no call's task is taken twice, and once nothing is left to do the task of every call has
   been taken.
   */
  lemma EachTaskOnce(maxQueueSize: int, workers: set<Thread>, es: seq<Event>)
    requires Legal(Started(maxQueueSize, workers), es)
    ensures var s := Run(Started(maxQueueSize, workers), es);
      && s.calls == Arriving(es) && |s.taken| <= |s.order|
      && (forall k :: 0 <= k < |s.taken| ==> s.order[k] < |s.calls| && s.taken[k] == s.calls[s.order[k]])
      && (forall k, l :: 0 <= k < l < |s.taken| ==> s.order[k] != s.order[l])
      && (Idle(s) ==> |s.taken| == |s.order| && forall i :: 0 <= i < |s.calls| ==> i in s.order)
  {
    hide Possible, Apply, Workers, Count, RunsTraced;
    var start := Started(maxQueueSize, workers);
    StartedIsSound(maxQueueSize, workers);
    RunsAreSound(start, es);
    StartedTraced(maxQueueSize, workers);
    RunsAreTraced(start, es);
    var s := Run(start, es);
    assert [] + Arriving(es) == Arriving(es);
    assert s.taken == s.posted[..|s.taken|];
    if Idle(s) {
      forall i | 0 <= i < |s.calls| ensures i in s.order {
        AllNumbers(s.order, |s.calls|, i);
      }
    }
  }

  lemma StartedIsSound(maxQueueSize: int, workers: set<Thread>)
    ensures Sound(Started(maxQueueSize, workers))
    ensures workers != {} ==> Workers(Started(maxQueueSize, workers)) > 0
  {
    var s := Started(maxQueueSize, workers);
    NobodyThere(s, AwaitsNotEmpty);
    NobodyThere(s, AwaitsNotFull);
    NobodyThere(s, Reposting);
    if w :| w in workers { CountIsPositive(s.threads, w, Taking); }
  }

  /**
   From start() on, under every interleaving: what was posted is what was taken followed
   by the queue, the queue keeps within a positive limit, and all threads are asleep only
   when there is nothing left to do.
   */
  lemma BoundedFifo(maxQueueSize: int, workers: set<Thread>, es: seq<Event>)
    requires Legal(Started(maxQueueSize, workers), es)
    ensures var s := Run(Started(maxQueueSize, workers), es);
      && s.posted == s.taken + s.queue
      && (maxQueueSize > 0 ==> |s.queue| <= maxQueueSize)
      && (workers != {} && AllAsleep(s) ==> Idle(s))
  {
    hide Possible, Apply, Workers, Count;
    var start := Started(maxQueueSize, workers);
    StartedIsSound(maxQueueSize, workers);
    RunsAreSound(start, es);
    var s := Run(start, es);
    if workers != {} && AllAsleep(s) {
      NoLostWakeup(s);
    }
  }

  // ---------------------------------------------------------------- progress

  /** How much work is left: no schedule can take more steps than this. */
  function Work(s: Pool): nat {
    5 * (Count(s.threads, Posting) + Count(s.threads, Reposting)) + 4 * Count(s.threads, AwaitsNotFull)
    + 3 * |s.queue| + Count(s.threads, Taking) + 2 * Count(s.threads, Running)
  }

  predicate Working(e: Event) {
    e.Posts? || e.Takes? || e.Finishes?
  }

  lemma WorkDecreases(s: Pool, e: Event)
    requires Sound(s) && Possible(s, e) && Working(e)
    ensures Work(Apply(s, e)) < Work(s)
  {
    hide Count, Standing, Sound;
    match e
    case Posts(p, notified) =>
      if MustWait(s, p) {
        CountsOfUpdate(s.threads, p, s.threads[p].(place := AwaitsNotFull));
      } else {
        WorkOfPost(s, p, notified);
      }
    case Takes(w, notified) =>
      if s.queue == [] {
        CountsOfUpdate(s.threads, w, s.threads[w].(place := AwaitsNotEmpty));
      } else {
        WorkOfTake(s, w, notified);
      }
    case Finishes(w) => CountsOfUpdate(s.threads, w, s.threads[w].(place := Taking));
  }

  lemma WorkOfPost(s: Pool, p: Thread, notified: Option<Thread>)
    requires Possible(s, Posts(p, notified)) && !MustWait(s, p)
    ensures Work(PostStep(s, p, notified)) < Work(s)
  {
    hide Count, Standing;
    if notified.Some? {
      CountsOfUpdate(s.threads, notified.value, s.threads[notified.value].(place := Taking));
    }
    CountsOfRemoval(Notify(s, Taking, notified).threads, p);
  }

  lemma WorkOfTake(s: Pool, w: Thread, notified: Option<Thread>)
    requires Possible(s, Takes(w, notified)) && s.queue != []
    ensures Work(TakeStep(s, w, notified)) < Work(s)
  {
    hide Count, Standing;
    var woken := if s.maxQueueSize > 0 then Notify(s, Reposting, notified) else s;
    if s.maxQueueSize > 0 && notified.Some? {
      CountsOfUpdate(s.threads, notified.value, s.threads[notified.value].(place := Reposting));
    }
    CountsOfUpdate(woken.threads, w, Status(Running, Some(s.queue[0]), |s.taken|));
  }

  ghost function SomeWaiter(threads: map<Thread, Status>, place: Place): (notified: Option<Thread>)
    ensures MayNotify(threads, place, notified)
  {
    if Count(threads, place) == 0 then None else
      var t :| t in Standing(threads, place);
      Some(t)
  }

  /** A step can be taken until everybody sleeps. */
  lemma AwakeMeansPossible(s: Pool) returns (e: Event)
    requires Sound(s) && !AllAsleep(s)
    ensures Working(e) && Possible(s, e)
  {
    hide Count, Standing;
    var t :| t in s.threads && s.threads[t].place != AwaitsNotEmpty && s.threads[t].place != AwaitsNotFull;
    e := match s.threads[t].place
      case Running => Finishes(t)
      case Taking => Takes(t, SomeWaiter(s.threads, AwaitsNotFull))
      case _ => Posts(t, SomeWaiter(s.threads, AwaitsNotEmpty));
  }

  /**
   Progress under any schedule: without new arrivals and spurious wake-ups at most
   Work(s) steps can follow, and when none can, every task has been taken.
   */
  lemma {:induction false} EverythingIsTaken(s: Pool, es: seq<Event>)
    requires Sound(s) && Workers(s) > 0 && Legal(s, es)
    requires forall i :: 0 <= i < |es| ==> Working(es[i])
    ensures |es| <= Work(s)
    ensures (forall e :: Working(e) ==> !Possible(Run(s, es), e)) ==> Idle(Run(s, es))
    decreases |es|
  {
    hide Sound, Possible, Apply, Work, Workers, Idle, AllAsleep;
    if es == [] {
      if AllAsleep(s) {
        NoLostWakeup(s);
      } else {
        var e := AwakeMeansPossible(s);
      }
    } else {
      SoundKept(s, es[0]);
      WorkDecreases(s, es[0]);
      EverythingIsTaken(Apply(s, es[0]), es[1..]);
    }
  }

  // --------------------------------------------------------------- the class

  /**
   The fields of ThreadPool. threads records who is about to take or post, who waits on
   which condition variable, and what the workers run.
   */
  class ThreadPool {
    var maxQueueSize: int
    var queue: seq<Task>
    var threads: map<Thread, Status>
    var calls: seq<Task>
    var posted: seq<Task>
    var order: seq<nat>
    var taken: seq<Task>

    ghost function View(): Pool
      reads this
    {
      Pool(maxQueueSize, queue, threads, calls, posted, order, taken)
    }

    constructor Start(maxQueueSize: int, workers: set<Thread>)
      ensures View() == Started(maxQueueSize, workers)
    {
      this.maxQueueSize, queue := maxQueueSize, [];
      calls, posted, order, taken := [], [], [], [];
      threads := map w | w in workers :: Status(Taking, None, 0);
    }

    /** notify_one: some waiter, any one of them. */
    method NotifyOne(waiting: Place, awake: Place) returns (notified: Option<Thread>)
      requires waiting != awake
      modifies this`threads
      ensures MayNotify(old(threads), waiting, notified)
      ensures View() == Notify(old(View()), awake, notified)
    {
      if Standing(threads, waiting) == {} {
        notified := None;
      } else {
        var t :| t in Standing(threads, waiting);
        threads := threads[t := threads[t].(place := awake)];
        notified := Some(t);
      }
    }

    /** post is called by producer p, which goes for the mutex. */
    method Enter(p: Thread, task: Task)
      requires p !in threads
      modifies this
      ensures View() == Apply(old(View()), Arrives(p, task))
    {
      threads := threads[p := Status(Posting, Some(task), |calls|)];
      calls := calls + [task];
    }

    /** post by producer p, which holds the mutex: it waits on notFull_ or queues its task. */
    method Post(p: Thread) returns (notified: Option<Thread>)
      requires Poster(View(), p)
      modifies this
      ensures Possible(old(View()), Posts(p, notified))
      ensures View() == PostStep(old(View()), p, notified)
    {
      var wait := if threads[p].place == Reposting then !(|queue| < maxQueueSize)
                  else maxQueueSize > 0 && maxQueueSize == |queue|;
      if wait {
        threads := threads[p := threads[p].(place := AwaitsNotFull)];
        notified := None;
      } else {
        var task := threads[p].task.value;
        queue := queue + [task];
        posted := posted + [task];
        order := order + [threads[p].turn];
        notified := NotifyOne(AwaitsNotEmpty, Taking);
        threads := threads - {p};
      }
    }

    /** take by worker w, which holds the mutex: it waits on notEmpty_ or gets the oldest task. */
    method Take(w: Thread) returns (task: Option<Task>, notified: Option<Thread>)
      requires At(threads, w, Taking)
      modifies this
      ensures Possible(old(View()), Takes(w, notified))
      ensures View() == TakeStep(old(View()), w, notified)
      ensures task == if old(queue) == [] then None else Some(old(queue[0]))
    {
      if queue == [] {
        threads := threads[w := threads[w].(place := AwaitsNotEmpty)];
        task, notified := None, None;
      } else {
        task := Some(queue[0]);
        var turn := |taken|;
        queue := queue[1..];
        taken := taken + [task.value];
        notified := None;
        if maxQueueSize > 0 {
          notified := NotifyOne(AwaitsNotFull, Reposting);
        }
        threads := threads[w := Status(Running, task, turn)];
      }
    }
  }
}
