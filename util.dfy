/**
 * The two delivery-path helpers of the relay's utility file:
 *  - BatchArrayItems cuts an ordered list into consecutive batches of bounded size;
 *  - ExecuteTasksInSequence runs deferred tasks one after another and collects
 *    their results in task order, giving up at the first rejection.
 */
module Util {
  import opened Wrappers

  // ---------------------------------------------------------------------------
  // Batching
  // ---------------------------------------------------------------------------

  /** The items of `batches`, batch after batch. */
  function Flatten<T>(batches: seq<seq<T>>): (items: seq<T>)
  {
    if batches == [] then [] else Flatten(batches[..|batches| - 1]) + batches[|batches| - 1]
  }

  /** Every batch holds between 1 and `size` items, and every batch but the last is full. */
  ghost predicate WellSized<T>(batches: seq<seq<T>>, size: nat)
  {
    (forall i :: 0 <= i < |batches| ==> 0 < |batches[i]| <= size) &&
    (forall i :: 0 <= i < |batches| - 1 ==> |batches[i]| == size)
  }

  /** Reference definition of the batching: the first `size` items, then the batches of the rest. */
  function Chunks<T>(items: seq<T>, size: nat): (batches: seq<seq<T>>)
    requires size > 0
    decreases |items|
  {
    if |items| == 0 then []
    else if |items| <= size then [items]
    else [items[..size]] + Chunks(items[size..], size)
  }

  lemma {:induction false} FlattenAppend<T>(batches: seq<seq<T>>, batch: seq<T>)
    ensures Flatten(batches + [batch]) == Flatten(batches) + batch
  {
    assert (batches + [batch])[..|batches|] == batches;
  }

  lemma {:induction false} FlattenCons<T>(batch: seq<T>, batches: seq<seq<T>>)
    ensures Flatten([batch] + batches) == batch + Flatten(batches)
    decreases |batches|
  {
    if batches == [] {
      assert [batch] + batches == [] + [batch];
      FlattenAppend([], batch);
    } else {
      var front, last := batches[..|batches| - 1], batches[|batches| - 1];
      assert batches == front + [last];
      assert [batch] + batches == ([batch] + front) + [last];
      FlattenAppend([batch] + front, last);
      FlattenCons(batch, front);
      FlattenAppend(front, last);
    }
  }

  /** A well-sized batching of n items has ceil(n / size) batches. */
  lemma {:induction false} BatchCount<T>(batches: seq<seq<T>>, size: nat)
    requires size > 0 && WellSized(batches, size)
    ensures |batches| == (|Flatten(batches)| + size - 1) / size
    decreases |batches|
  {
    if batches != [] {
      var front, last := batches[..|batches| - 1], batches[|batches| - 1];
      assert forall i :: 0 <= i < |front| ==> |front[i]| == size;
      FullBatchesLength(front, size);
      assert batches == front + [last];
      FlattenAppend(front, last);
      var n := |Flatten(batches)|;
      assert n == |front| * size + |last|;
      CeilingOfFullPlusLast(|front|, size, |last|);
      assert (n + size - 1) / size == |front| + 1;
    } else {
      DivSum(0, size, size - 1);
    }
  }

  /** n batches of exactly `size` items hold n * size items. */
  lemma {:induction false} FullBatchesLength<T>(batches: seq<seq<T>>, size: nat)
    requires forall i :: 0 <= i < |batches| ==> |batches[i]| == size
    ensures |Flatten(batches)| == |batches| * size
    decreases |batches|
  {
    if batches != [] {
      FullBatchesLength(batches[..|batches| - 1], size);
    }
  }

  /** m full batches plus a last one of 1..size items need m + 1 batches. */
  lemma CeilingOfFullPlusLast(m: nat, size: nat, last: nat)
    requires 0 < last <= size
    ensures (m * size + last + size - 1) / size == m + 1
  {
    assert m * size + last + size - 1 == (m + 1) * size + (last - 1);
    DivSum(m + 1, size, last - 1);
  }

  lemma DivSum(q: nat, d: nat, r: nat)
    requires 0 <= r < d
    ensures (q * d + r) / d == q
  {
    var x := q * d + r;
    var k, m := x / d, x % d;
    assert x == k * d + m && 0 <= m < d;
    if k < q {
      MulMonotone(k + 1, q, d);
    } else if k > q {
      MulMonotone(q + 1, k, d);
    }
  }

  lemma MulMonotone(a: int, b: int, d: nat)
    requires a <= b
    ensures a * d <= b * d
  {
    assert b * d - a * d == (b - a) * d;
  }

  /** Chunks is a well-sized batching that flattens back to its input. */
  lemma {:induction false} ChunksPartition<T>(items: seq<T>, size: nat)
    requires size > 0
    ensures Flatten(Chunks(items, size)) == items
    ensures WellSized(Chunks(items, size), size)
    decreases |items|
  {
    if |items| == 0 {
    } else if |items| <= size {
      FlattenAppend([], items);
      assert [] + [items] == [items];
    } else {
      var rest := Chunks(items[size..], size);
      ChunksPartition(items[size..], size);
      FlattenCons(items[..size], rest);
      assert items[..size] + items[size..] == items;
    }
  }

  /** Chunks is the only well-sized batching that flattens back to `items`. */
  lemma {:induction false} ChunksUnique<T>(batches: seq<seq<T>>, items: seq<T>, size: nat)
    requires size > 0
    ensures (WellSized(batches, size) && Flatten(batches) == items) <==> batches == Chunks(items, size)
    decreases |batches|
  {
    ChunksPartition(items, size);
    if WellSized(batches, size) && Flatten(batches) == items && batches != [] {
      var first, rest := batches[0], batches[1..];
      assert batches == [first] + rest;
      FlattenCons(first, rest);
      if rest == [] {
        assert items == first;
      } else {
        assert |rest[0]| > 0;
        assert rest == [rest[0]] + rest[1..];
        FlattenCons(rest[0], rest[1..]);
        assert |first| == size;
        assert items[..size] == first && items[size..] == Flatten(rest);
        ChunksUnique(rest, items[size..], size);
      }
    }
  }

  /**
   * Splits `items` into consecutive batches of at most `batchSize` items.
   * None (null or undefined in the caller) gives None; an empty list gives no batches.
   */
  method BatchArrayItems<T>(items: Option<seq<T>>, batchSize: nat) returns (batches: Option<seq<seq<T>>>)
    requires batchSize > 0
    ensures items.None? <==> batches.None?
    ensures items == Some([]) ==> batches == Some([])
    ensures items.Some? ==> Flatten(batches.value) == items.value
    ensures items.Some? ==> WellSized(batches.value, batchSize)
    ensures items.Some? ==> |batches.value| == (|items.value| + batchSize - 1) / batchSize
    ensures items.Some? ==> batches.value == Chunks(items.value, batchSize)
  {
    if items.None? {
      return None;
    }
    var s := items.value;
    if |s| == 0 {
      return Some([]);
    }
    var acc: seq<seq<T>> := [[]];
    for i := 0 to |s|
      invariant |acc| >= 1
      invariant Flatten(acc) == s[..i]
      invariant forall j :: 0 <= j < |acc| - 1 ==> |acc[j]| == batchSize
      invariant |acc[|acc| - 1]| <= batchSize
      invariant i > 0 ==> |acc[|acc| - 1]| > 0
    {
      var front, last := acc[..|acc| - 1], acc[|acc| - 1];
      assert acc == front + [last];
      FlattenAppend(front, last);
      assert s[..i + 1] == s[..i] + [s[i]];
      if |last| < batchSize {
        acc := front + [last + [s[i]]];
        FlattenAppend(front, last + [s[i]]);
      } else {
        acc := acc + [[s[i]]];
        FlattenAppend(front + [last], [s[i]]);
      }
    }
    assert s[..|s|] == s;
    BatchCount(acc, batchSize);
    ChunksUnique(acc, s, batchSize);
    return Some(acc);
  }

  /** The example in batchArrayItems' doc comment (src/util.js:3-13): five items, batch size 2. */
  lemma DocExample()
    ensures Chunks(["blue", "green", "red", "yellow", "pink"], 2)
         == [["blue", "green"], ["red", "yellow"], ["pink"]]
  {
    var s := ["blue", "green", "red", "yellow", "pink"];
    assert s[..2] == ["blue", "green"] && s[2..] == ["red", "yellow", "pink"];
    assert s[2..][..2] == ["red", "yellow"] && s[2..][2..] == ["pink"];
  }

  // ---------------------------------------------------------------------------
  // Sequential task execution
  // ---------------------------------------------------------------------------

  /** How a task's promise settles. */
  datatype Settled<R, E> = Resolved(value: R) | Rejected(reason: E)

  /**
   * A deferred task. It does nothing until it is started; started in some state
   * of the world, it settles and leaves the world in a new state.
   */
  type Task<!W, R, E> = W -> (Settled<R, E>, W)

  /**
   * What running a list of tasks produced: how the whole run settled, the
   * world afterwards, and the indices of the tasks that were started, in the
   * order they were started.
   */
  datatype Run<W, R, E> = Run(outcome: Settled<seq<R>, E>, world: W, started: seq<nat>)

  /**
   * The promise chain built by folding over `tasks`: each task is started
   * only when the chain before it has resolved, its result is appended to the
   * chain's results, and a rejection passes through every later link unchanged.
   */
  function ExecuteTasksInSequence<W, R, E>(tasks: seq<Task<W, R, E>>, world: W): (run: Run<W, R, E>)
    ensures tasks == [] ==> run == Run(Resolved([]), world, [])
    ensures |run.started| <= |tasks|
    ensures forall i :: 0 <= i < |run.started| ==> run.started[i] == i
    ensures run.outcome.Resolved? ==> |run.outcome.value| == |run.started| == |tasks|
    ensures run.outcome.Rejected? ==> |run.started| > 0
    decreases |tasks|
  {
    if tasks == [] then Run(Resolved([]), world, [])
    else
      var chain := ExecuteTasksInSequence(tasks[..|tasks| - 1], world);
      match chain.outcome
      case Rejected(_) => chain
      case Resolved(results) =>
        var (settled, world') := tasks[|tasks| - 1](chain.world);
        var started := chain.started + [|tasks| - 1];
        match settled
        case Resolved(v) => Run(Resolved(results + [v]), world', started)
        case Rejected(e) => Run(Rejected(e), world', started)
  }

  /** The world in which task `i` starts, if the tasks before it all resolve. */
  function WorldBefore<W, R, E>(tasks: seq<Task<W, R, E>>, world: W, i: nat): (before: W)
    requires i <= |tasks|
  {
    ExecuteTasksInSequence(tasks[..i], world).world
  }

  /** How task `i` settles when it is started in the world the tasks before it left. */
  function SettledAt<W, R, E>(tasks: seq<Task<W, R, E>>, world: W, i: nat): (settled: Settled<R, E>)
    requires i < |tasks|
  {
    tasks[i](WorldBefore(tasks, world, i)).0
  }

  /** Tasks that come later in the list do not change how an earlier task settles. */
  lemma SettledAtPrefix<W, R, E>(tasks: seq<Task<W, R, E>>, world: W, i: nat, k: nat)
    requires i < k <= |tasks|
    ensures SettledAt(tasks[..k], world, i) == SettledAt(tasks, world, i)
  {
    assert tasks[..k][..i] == tasks[..i];
  }

  /** A run that resolves holds, at index i, the value task i resolved with. */
  lemma {:induction false} ResolvedInTaskOrder<W, R, E>(tasks: seq<Task<W, R, E>>, world: W)
    ensures var run := ExecuteTasksInSequence(tasks, world);
      run.outcome.Resolved? ==>
        forall i :: 0 <= i < |tasks| ==> SettledAt(tasks, world, i) == Resolved(run.outcome.value[i])
    decreases |tasks|
  {
    var run := ExecuteTasksInSequence(tasks, world);
    if tasks != [] && run.outcome.Resolved? {
      var n := |tasks| - 1;
      var front := tasks[..n];
      var chain := ExecuteTasksInSequence(front, world);
      assert chain.outcome.Resolved?;
      ResolvedInTaskOrder(front, world);
      forall i | 0 <= i < |tasks|
        ensures SettledAt(tasks, world, i) == Resolved(run.outcome.value[i])
      {
        if i < n {
          SettledAtPrefix(tasks, world, i, n);
          assert run.outcome.value[i] == chain.outcome.value[i];
        } else {
          assert WorldBefore(tasks, world, n) == chain.world;
        }
      }
    }
  }

  /**
   * A run that rejects started the tasks 0..j in order, each before j
   * resolved, and task j rejected with the run's reason; no later task started.
   */
  lemma {:induction false} RejectionStopsTheRun<W, R, E>(tasks: seq<Task<W, R, E>>, world: W)
    ensures var run := ExecuteTasksInSequence(tasks, world);
      run.outcome.Rejected? ==>
        var j := |run.started| - 1;
        j < |tasks| &&
        run.started == seq(j + 1, i => i) &&
        (forall i :: 0 <= i < j ==> SettledAt(tasks, world, i).Resolved?) &&
        SettledAt(tasks, world, j) == Rejected(run.outcome.reason)
    decreases |tasks|
  {
    var run := ExecuteTasksInSequence(tasks, world);
    if tasks != [] && run.outcome.Rejected? {
      var n := |tasks| - 1;
      var front := tasks[..n];
      var chain := ExecuteTasksInSequence(front, world);
      var j := |run.started| - 1;
      if chain.outcome.Rejected? {
        RejectionStopsTheRun(front, world);
        forall i | 0 <= i <= j
          ensures SettledAt(tasks, world, i) == SettledAt(front, world, i)
        {
          SettledAtPrefix(tasks, world, i, n);
        }
      } else {
        assert j == n;
        ResolvedInTaskOrder(front, world);
        forall i | 0 <= i < j
          ensures SettledAt(tasks, world, i).Resolved?
        {
          SettledAtPrefix(tasks, world, i, n);
        }
        assert WorldBefore(tasks, world, n) == chain.world;
      }
    }
  }

  /** Reference definition: start task `i`, and only if it resolves, run the tasks after it. */
  function OneAfterAnother<W, R, E>(tasks: seq<Task<W, R, E>>, i: nat, world: W): (run: Run<W, R, E>)
    requires i <= |tasks|
    decreases |tasks| - i
  {
    if i == |tasks| then Run(Resolved([]), world, [])
    else
      var (settled, world') := tasks[i](world);
      match settled
      case Rejected(e) => Run(Rejected(e), world', [i])
      case Resolved(v) =>
        var rest := OneAfterAnother(tasks, i + 1, world');
        Run(Prepend([v], rest.outcome), rest.world, [i] + rest.started)
  }

  /** Puts `results` in front of the results of a run that resolved; a rejection is kept. */
  function Prepend<R, E>(results: seq<R>, outcome: Settled<seq<R>, E>): (prepended: Settled<seq<R>, E>)
  {
    match outcome
    case Resolved(rest) => Resolved(results + rest)
    case Rejected(e) => Rejected(e)
  }

  /** The run of a resolved prefix `before`, followed by the run of the remaining tasks `after`. */
  function Then<W, R, E>(before: Run<W, R, E>, after: Run<W, R, E>): (whole: Run<W, R, E>)
    requires before.outcome.Resolved?
  {
    Run(Prepend(before.outcome.value, after.outcome), after.world, before.started + after.started)
  }

  /**
   * After the fold has consumed the first k tasks: if it is still resolved,
   * running the rest one after another completes the reference run; if it has
   * rejected, it already is the reference run.
   */
  lemma {:induction false} FoldPrefix<W, R, E>(tasks: seq<Task<W, R, E>>, world: W, k: nat)
    requires k <= |tasks|
    ensures var chain := ExecuteTasksInSequence(tasks[..k], world);
      OneAfterAnother(tasks, 0, world) ==
        if chain.outcome.Resolved? then Then(chain, OneAfterAnother(tasks, k, chain.world)) else chain
    decreases k
  {
    var reference := OneAfterAnother(tasks, 0, world);
    if k == 0 {
      assert tasks[..0] == [];
      var chain := ExecuteTasksInSequence(tasks[..0], world);
      assert chain == Run(Resolved([]), world, []);
      match reference.outcome {
        case Resolved(vs) => assert [] + vs == vs;
        case Rejected(_) =>
      }
      assert [] + reference.started == reference.started;
    } else {
      FoldPrefix(tasks, world, k - 1);
      var prev := ExecuteTasksInSequence(tasks[..k - 1], world);
      assert tasks[..k][..k - 1] == tasks[..k - 1];
      var chain := ExecuteTasksInSequence(tasks[..k], world);
      if prev.outcome.Resolved? {
        var rs := prev.outcome.value;
        var (settled, world') := tasks[k - 1](prev.world);
        match settled {
          case Rejected(e) =>
          case Resolved(v) =>
            var rest := OneAfterAnother(tasks, k, world');
            assert prev.started + ([k - 1] + rest.started) == (prev.started + [k - 1]) + rest.started;
            match rest.outcome {
              case Resolved(vs) => assert rs + ([v] + vs) == (rs + [v]) + vs;
              case Rejected(_) =>
            }
        }
      }
    }
  }

  /** The fold over the task list and the one-after-another run agree on every input. */
  lemma {:induction false} FoldIsOneAfterAnother<W, R, E>(tasks: seq<Task<W, R, E>>, world: W)
    ensures ExecuteTasksInSequence(tasks, world) == OneAfterAnother(tasks, 0, world)
  {
    FoldPrefix(tasks, world, |tasks|);
    assert tasks[..|tasks|] == tasks;
    var chain := ExecuteTasksInSequence(tasks, world);
    if chain.outcome.Resolved? {
      assert chain.outcome.value + [] == chain.outcome.value;
      assert chain.started + [] == chain.started;
    }
  }
}
