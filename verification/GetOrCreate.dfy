/** Double-checked creation of per-rule objects by any number of threads: look under the read lock,
    look again under the write lock, create only if the object is still missing. */
module GetOrCreate {
  import opened Common

  /** Objects are numbered in the order of their creation. */
  type ObjectId = nat

  /** Where a thread stands in its call for a rule id. */
  datatype Thread =
    | Idle
    | Called(id: string)
    | Missed(id: string)
    | Returned(id: string, object_: ObjectId)

  /** `owners[n]` is the rule id that object `n` was created for. */
  datatype World = World(published: map<string, ObjectId>, owners: seq<string>, threads: map<nat, Thread>)

  const INITIAL := World(map[], [], map[])

  datatype Step =
    | Call(t: nat, id: string)
    | ReadLocked(t: nat)
    | WriteLocked(t: nat)
    | Remove(id: string)

  function ThreadOf(w: World, t: nat): Thread {
    Lookup(w.threads, t).GetOr(Idle)
  }

  /** Each critical section is one step; a thread may begin a new call once the last one returned. */
  predicate Enabled(w: World, step: Step) {
    match step
    case Call(t, _) => ThreadOf(w, t).Idle? || ThreadOf(w, t).Returned?
    case ReadLocked(t) => ThreadOf(w, t).Called?
    case WriteLocked(t) => ThreadOf(w, t).Missed?
    case Remove(_) => true
  }

  function Apply(w: World, step: Step): World
    requires Enabled(w, step)
  {
    match step
    case Call(t, id) => w.(threads := w.threads[t := Called(id)])
    case ReadLocked(t) =>
      var id := ThreadOf(w, t).id;
      w.(threads := w.threads[t := if id in w.published then Returned(id, w.published[id]) else Missed(id)])
    case WriteLocked(t) =>
      var id := ThreadOf(w, t).id;
      if id in w.published then w.(threads := w.threads[t := Returned(id, w.published[id])])
      else World(w.published[id := |w.owners|], w.owners + [id], w.threads[t := Returned(id, |w.owners|)])
    case Remove(id) => w.(published := w.published - {id})
  }

  ghost predicate Execution(run: seq<Step>, trace: seq<World>) {
    && |trace| == |run| + 1
    && forall i :: 0 <= i < |run| ==> Enabled(trace[i], run[i]) && trace[i + 1] == Apply(trace[i], run[i])
  }

  /** Step `i` returns object `n` for `id` to its caller. */
  ghost predicate Returns(run: seq<Step>, trace: seq<World>, i: nat, id: string, n: ObjectId)
    requires |trace| == |run| + 1 && i < |run|
  {
    && (run[i].ReadLocked? || run[i].WriteLocked?)
    && ThreadOf(trace[i + 1], run[i].t) == Returned(id, n)
  }

  /** What is published stays published until it is removed. */
  lemma {:induction false} PublishedStays(run: seq<Step>, trace: seq<World>, i: nat, j: nat, id: string)
    requires Execution(run, trace) && i <= j < |trace| && id in trace[i].published
    requires forall k :: i <= k < j ==> run[k] != Remove(id)
    ensures id in trace[j].published && trace[j].published[id] == trace[i].published[id]
  {
    if i < j {
      PublishedStays(run, trace, i, j - 1, id);
      assert trace[j] == Apply(trace[j - 1], run[j - 1]);
    }
  }

  lemma ReturnedIsPublished(run: seq<Step>, trace: seq<World>, i: nat, id: string, n: ObjectId)
    requires Execution(run, trace) && i < |run| && Returns(run, trace, i, id, n)
    ensures id in trace[i + 1].published && trace[i + 1].published[id] == n
  {
    assert trace[i + 1] == Apply(trace[i], run[i]);
  }

  /** In every interleaving, any two calls for a rule id that return with no removal of that id in
      between return one and the same object, so no trigger history and no window entry is lost. */
  lemma SameObject(run: seq<Step>, trace: seq<World>, i: nat, j: nat, id: string, m: ObjectId, n: ObjectId)
    requires Execution(run, trace) && i <= j < |run|
    requires Returns(run, trace, i, id, m) && Returns(run, trace, j, id, n)
    requires forall k :: i < k < j ==> run[k] != Remove(id)
    ensures m == n
  {
    ReturnedIsPublished(run, trace, i, id, m);
    ReturnedIsPublished(run, trace, j, id, n);
    PublishedStays(run, trace, i + 1, j + 1, id);
  }

  /** Published and returned objects belong to the id they are filed under. */
  ghost predicate Owned(w: World) {
    && (forall id :: id in w.published ==> w.published[id] < |w.owners| && w.owners[w.published[id]] == id)
    && (forall t :: t in w.threads && w.threads[t].Returned? ==>
          w.threads[t].object_ < |w.owners| && w.owners[w.threads[t].object_] == w.threads[t].id)
  }

  lemma {:induction false} ExecutionIsOwned(run: seq<Step>, trace: seq<World>, n: nat)
    requires Execution(run, trace) && trace[0] == INITIAL && n <= |run|
    ensures Owned(trace[n])
  {
    if n > 0 {
      ExecutionIsOwned(run, trace, n - 1);
      assert trace[n] == Apply(trace[n - 1], run[n - 1]);
    }
  }

  lemma {:induction false} OwnersGrow(run: seq<Step>, trace: seq<World>, i: nat, j: nat)
    requires Execution(run, trace) && i <= j < |trace|
    ensures trace[i].owners <= trace[j].owners
  {
    if i < j {
      OwnersGrow(run, trace, i, j - 1);
      assert trace[j] == Apply(trace[j - 1], run[j - 1]);
    }
  }

  /** Calls for different rule ids never share an object, whatever is removed when. */
  lemma DifferentObjects(run: seq<Step>, trace: seq<World>, i: nat, j: nat, a: string, b: string,
                         m: ObjectId, n: ObjectId)
    requires Execution(run, trace) && trace[0] == INITIAL && i <= j < |run|
    requires Returns(run, trace, i, a, m) && Returns(run, trace, j, b, n) && a != b
    ensures m != n
  {
    ExecutionIsOwned(run, trace, i + 1);
    ExecutionIsOwned(run, trace, j + 1);
    OwnersGrow(run, trace, i + 1, j + 1);
  }

  // ---------------------------------------------------------------------------------------------
  // What a removal leaves behind
  // ---------------------------------------------------------------------------------------------

  /** Thread `t` is in a call for the id that has not returned. */
  predicate InCall(w: World, t: nat, id: string) {
    ThreadOf(w, t) == Called(id) || ThreadOf(w, t) == Missed(id)
  }

  /** Step `k` is the write of a call for the id. */
  ghost predicate Writes(run: seq<Step>, trace: seq<World>, k: nat, id: string)
    requires |trace| == |run| + 1 && k < |run|
  {
    run[k].WriteLocked? && ThreadOf(trace[k], run[k].t) == Missed(id)
  }

  /** Exactly when a removed id comes back: it is published after its removal if and only if a call for
      it has written since. */
  lemma {:induction false} BackIffWritten(run: seq<Step>, trace: seq<World>, i: nat, n: nat, id: string)
    requires Execution(run, trace) && i < n <= |run| && run[i] == Remove(id)
    requires forall k :: i < k < n ==> run[k] != Remove(id)
    ensures id in trace[n].published <==> exists k: nat :: i < k < n && Writes(run, trace, k, id)
    decreases n
  {
    assert trace[n] == Apply(trace[n - 1], run[n - 1]);
    if n > i + 1 {
      BackIffWritten(run, trace, i, n - 1, id);
      if id in trace[n].published && id !in trace[n - 1].published {
        assert Writes(run, trace, n - 1, id);
      }
    }
  }

  /** A call in progress that did not begin since step `i` was in progress then. */
  lemma {:induction false} InCallBefore(run: seq<Step>, trace: seq<World>, i: nat, k: nat, t: nat, id: string)
    requires Execution(run, trace) && i <= k < |trace| && InCall(trace[k], t, id)
    requires forall j :: i <= j < k ==> run[j] != Call(t, id)
    ensures InCall(trace[i], t, id)
  {
    if i < k {
      assert trace[k] == Apply(trace[k - 1], run[k - 1]);
      InCallBefore(run, trace, i, k - 1, t, id);
    }
  }

  /** Without new calls for the id after its removal, it comes back if and only if a call that had not
      returned at the removal writes afterwards. Whoever asks for the id next then gets that object. */
  lemma BackIffLateWriter(run: seq<Step>, trace: seq<World>, i: nat, n: nat, id: string)
    requires Execution(run, trace) && i < n <= |run| && run[i] == Remove(id)
    requires forall k :: i < k < n ==> run[k] != Remove(id) && !(run[k].Call? && run[k].id == id)
    ensures id in trace[n].published <==>
            exists k: nat :: i < k < n && Writes(run, trace, k, id) && InCall(trace[i], run[k].t, id)
  {
    BackIffWritten(run, trace, i, n, id);
    if k: nat :| i < k < n && Writes(run, trace, k, id) {
      InCallBefore(run, trace, i, k, run[k].t, id);
    }
  }

  /** An input: a call misses the id, the id is removed, and the call publishes an object for it. */
  lemma RemovedComesBack(id: string)
    ensures var run := [Call(0, id), ReadLocked(0), Remove(id), WriteLocked(0)];
            exists trace: seq<World> :: Execution(run, trace) && trace[0] == INITIAL && id in trace[4].published
  {
    var run := [Call(0, id), ReadLocked(0), Remove(id), WriteLocked(0)];
    var one := Apply(INITIAL, run[0]);
    var two := Apply(one, run[1]);
    var three := Apply(two, run[2]);
    var trace := [INITIAL, one, two, three, Apply(three, run[3])];
    assert Execution(run, trace) && id in trace[4].published;
  }
}
