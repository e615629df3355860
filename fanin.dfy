/**
 * The collection half of experiment() (ping-exp.py:213-227,
 * ping-test.py:174-189): the parent performs one queue.get() per started
 * worker, stops the program at the first message whose result is None, and
 * otherwise files each result under its experiment id.
 *
 * The workers run concurrently, so the queue delivers their messages in an
 * order nobody controls: the inbox is the sequence in which they arrive, and
 * the lemmas about it only assume that it holds exactly the messages the
 * workers posted (the same multiset). When fewer messages are posted than
 * the parent waits for, queue.get() never returns: the run is Blocked.
 */
module Fanin {
  import opened Wrappers

  /** What a worker puts on the queue: (experiment_id, result), the result None when the probe failed. */
  datatype Message<R> = Message(id: string, result: Option<R>)

  /** How the receive loop ends: SystemExit at a failed experiment, waiting forever, or with the filed results. */
  datatype Outcome<T> = Aborted(failed: string) | Blocked | Completed(value: T)

  predicate AllSucceeded<R>(ms: seq<Message<R>>)
  {
    forall k :: 0 <= k < |ms| ==> ms[k].result.Some?
  }

  /** The position of the first message that carries no result. */
  function FirstFailure<R>(ms: seq<Message<R>>): (r: Option<nat>)
    ensures r.None? <==> AllSucceeded(ms)
    ensures r.Some? ==> r.value < |ms| && ms[r.value].result.None? && AllSucceeded(ms[..r.value])
  {
    if ms == [] then None
    else if ms[0].result.None? then Some(0)
    else
      match FirstFailure(ms[1..])
      case None => None
      case Some(k) => Some(k + 1)
  }

  /** results['experiments'] after filing the messages in order: a later message for an id replaces an earlier one. */
  function Filed<R>(ms: seq<Message<R>>): map<string, R>
    requires AllSucceeded(ms)
  {
    if ms == [] then map[]
    else
      var init, last := ms[..|ms| - 1], ms[|ms| - 1];
      assert AllSucceeded(init) by {
        forall k | 0 <= k < |init| ensures init[k].result.Some? { assert ms[k].result.Some?; }
      }
      Filed(init)[last.id := last.result.value]
  }

  function Ids<R>(ms: seq<Message<R>>): set<string>
  {
    set k | 0 <= k < |ms| :: ms[k].id
  }

  /** What n receives from the inbox give: the first failure among them, a wait for a missing message, or the filed results. */
  function Collected<R>(n: nat, inbox: seq<Message<R>>): Outcome<map<string, R>>
  {
    var received := inbox[..if n < |inbox| then n else |inbox|];
    match FirstFailure(received)
    case Some(k) => Aborted(received[k].id)
    case None => if |inbox| < n then Blocked else Completed(Filed(received))
  }

  /** The receive loop: for num in range(n), get a message, bail out on None, else file it. */
  method Collect<R>(n: nat, inbox: seq<Message<R>>) returns (outcome: Outcome<map<string, R>>)
    ensures outcome == Collected(n, inbox)
  {
    var experiments: map<string, R> := map[];
    for num := 0 to n
      invariant num <= |inbox| && AllSucceeded(inbox[..num]) && experiments == Filed(inbox[..num])
    {
      if num == |inbox| {
        FirstFailureSucceeded(inbox);
        return Blocked;
      }
      var tmp := inbox[num];
      if tmp.result.None? {
        FirstFailureAt(inbox[..if n < |inbox| then n else |inbox|], num);
        return Aborted(tmp.id);
      }
      FiledSnoc(inbox, num);
      experiments := experiments[tmp.id := tmp.result.value];
    }
    FirstFailureSucceeded(inbox[..n]);
    assert inbox[..n][..n] == inbox[..n];
    return Completed(experiments);
  }

  lemma {:induction false} FirstFailureSucceeded<R>(ms: seq<Message<R>>)
    requires AllSucceeded(ms)
    ensures FirstFailure(ms).None?
  {
  }

  /** When every message before k succeeded and message k did not, k is the first failure. */
  lemma {:induction false} FirstFailureAt<R>(ms: seq<Message<R>>, k: nat)
    requires k < |ms| && ms[k].result.None?
    requires forall j :: 0 <= j < k ==> ms[j].result.Some?
    ensures FirstFailure(ms) == Some(k)
  {
  }

  lemma {:induction false} FiledSnoc<R>(inbox: seq<Message<R>>, num: nat)
    requires num < |inbox| && AllSucceeded(inbox[..num]) && inbox[num].result.Some?
    ensures AllSucceeded(inbox[..num + 1])
    ensures Filed(inbox[..num + 1]) == Filed(inbox[..num])[inbox[num].id := inbox[num].result.value]
  {
    assert inbox[..num + 1][..num] == inbox[..num];
  }

  // ---------------------------------------------------------------------------
  // What filing gives
  // ---------------------------------------------------------------------------

  /** Every received id, and no other, is a key of the filed results. */
  lemma {:induction false} FiledKeys<R>(ms: seq<Message<R>>)
    requires AllSucceeded(ms)
    ensures Filed(ms).Keys == Ids(ms)
  {
    if ms != [] {
      var init := ms[..|ms| - 1];
      assert AllSucceeded(init) by {
        forall k | 0 <= k < |init| ensures init[k].result.Some? { assert ms[k].result.Some?; }
      }
      FiledKeys(init);
      assert Ids(ms) == Ids(init) + {ms[|ms| - 1].id} by {
        forall id | id in Ids(ms) ensures id in Ids(init) + {ms[|ms| - 1].id} {
          var k :| 0 <= k < |ms| && ms[k].id == id;
          if k < |init| {
            assert init[k].id == id;
          }
        }
        forall id | id in Ids(init) ensures id in Ids(ms) {
          var k :| 0 <= k < |init| && init[k].id == id;
          assert ms[k].id == id;
        }
      }
    }
  }

  /** An id is filed with the result of the last message received for it. */
  lemma {:induction false} FiledLastWins<R>(ms: seq<Message<R>>, k: nat)
    requires AllSucceeded(ms) && k < |ms|
    requires forall j :: k < j < |ms| ==> ms[j].id != ms[k].id
    ensures ms[k].id in Filed(ms) && Filed(ms)[ms[k].id] == ms[k].result.value
    decreases |ms|
  {
    var init := ms[..|ms| - 1];
    assert AllSucceeded(init) by {
      forall j | 0 <= j < |init| ensures init[j].result.Some? { assert ms[j].result.Some?; }
    }
    if k < |ms| - 1 {
      assert init[k] == ms[k];
      assert forall j :: k < j < |init| ==> init[j] == ms[j];
      FiledLastWins(init, k);
    }
  }

  /** Every filed result is the result of some received message with that id. */
  lemma {:induction false} FiledFromMessage<R>(ms: seq<Message<R>>, id: string)
    requires AllSucceeded(ms) && id in Filed(ms)
    ensures Message(id, Some(Filed(ms)[id])) in ms
  {
    FiledKeys(ms);
    var k :| 0 <= k < |ms| && ms[k].id == id;
    var last := LastWithId(ms, id, k);
    FiledLastWins(ms, last);
  }

  /** The position of the last message with the given id, at or after one known to carry it. */
  lemma {:induction false} LastWithId<R>(ms: seq<Message<R>>, id: string, from: nat) returns (k: nat)
    requires from < |ms| && ms[from].id == id
    ensures from <= k < |ms| && ms[k].id == id
    ensures forall j :: k < j < |ms| ==> ms[j].id != id
    decreases |ms| - from
  {
    if exists j :: from < j < |ms| && ms[j].id == id {
      var j :| from < j < |ms| && ms[j].id == id;
      k := LastWithId(ms, id, j);
      assert forall i :: k < i < |ms| ==> ms[i].id != id;
    } else {
      k := from;
    }
  }

  // ---------------------------------------------------------------------------
  // An inbox that holds exactly what the workers posted
  // ---------------------------------------------------------------------------

  /**
   * When every worker posts one message and none carries a failure, the
   * run completes with one key per experiment id, each filed with a result
   * some worker posted under that id.
   */
  lemma {:induction false} CollectedAllSucceed<R>(n: nat, inbox: seq<Message<R>>, posted: seq<Message<R>>)
    requires multiset(inbox) == multiset(posted) && |posted| == n && AllSucceeded(posted)
    ensures Collected(n, inbox).Completed?
    ensures Collected(n, inbox).value.Keys == Ids(posted)
    ensures forall id :: id in Collected(n, inbox).value ==> Message(id, Some(Collected(n, inbox).value[id])) in posted
  {
    assert |inbox| == |multiset(inbox)| == |multiset(posted)| == n;
    assert inbox[..n] == inbox;
    forall k | 0 <= k < |inbox| ensures inbox[k].result.Some? {
      assert inbox[k] in multiset(posted);
    }
    FiledKeys(inbox);
    forall id | id in Ids(inbox) ensures id in Ids(posted) {
      var k :| 0 <= k < |inbox| && inbox[k].id == id;
      assert inbox[k] in multiset(posted);
    }
    forall id | id in Ids(posted) ensures id in Ids(inbox) {
      var k :| 0 <= k < |posted| && posted[k].id == id;
      assert posted[k] in multiset(inbox);
    }
    forall id | id in Filed(inbox) ensures Message(id, Some(Filed(inbox)[id])) in posted {
      FiledFromMessage(inbox, id);
      assert Message(id, Some(Filed(inbox)[id])) in multiset(inbox);
    }
  }

  /**
   * When no more messages are posted than the parent waits for and some carry
   * a failure, the run stops at one of those: every message is received, so
   * the failure is reached before any wait for a missing one.
   */
  lemma {:induction false} CollectedSomeFail<R>(n: nat, inbox: seq<Message<R>>, posted: seq<Message<R>>)
    requires multiset(inbox) == multiset(posted) && |posted| <= n && !AllSucceeded(posted)
    ensures Collected(n, inbox).Aborted?
    ensures Message(Collected(n, inbox).failed, None) in posted
  {
    assert |inbox| == |multiset(inbox)| == |multiset(posted)| <= n;
    assert inbox[..|inbox|] == inbox;
    var k :| 0 <= k < |posted| && posted[k].result.None?;
    assert posted[k] in multiset(inbox);
    var f := FirstFailure(inbox).value;
    assert inbox[f] in multiset(posted);
    assert inbox[f] == Message(inbox[f].id, None);
  }

  /** When fewer messages are posted than the parent waits for, and none carries a failure, it waits forever. */
  lemma {:induction false} CollectedTooFew<R>(n: nat, inbox: seq<Message<R>>, posted: seq<Message<R>>)
    requires multiset(inbox) == multiset(posted) && |posted| < n && AllSucceeded(posted)
    ensures Collected(n, inbox) == Blocked
  {
    assert |inbox| == |multiset(inbox)| == |multiset(posted)|;
    assert inbox[..|inbox|] == inbox;
    forall k | 0 <= k < |inbox| ensures inbox[k].result.Some? {
      assert inbox[k] in multiset(posted);
    }
  }
}
