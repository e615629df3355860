/**
 * find_lost_sequence_numbers(results), which test.py exercises: the
 * icmp_seq numbers from 1 to the summary's transmitted count that no
 * response carries, in ascending order. The function itself lives in a
 * module (pingexp) that is not part of this model; what it does is defined
 * here from the seven cases of test.py.
 */
module Lost {
  import opened Wrappers
  import opened PingOutput

  /** The icmp_seq numbers the responses carry. */
  function Seen(responses: seq<Response>): set<int>
  {
    set k | 0 <= k < |responses| :: responses[k].icmpSeq as int
  }

  /** The numbers lo, lo + 1, ..., hi that are not in seen, in ascending order. */
  function Missing(seen: set<int>, lo: int, hi: int): seq<int>
    decreases hi - lo
  {
    if lo > hi then [] else (if lo in seen then [] else [lo]) + Missing(seen, lo + 1, hi)
  }

  /** The lost sequence numbers of responses from transmitted probes numbered from 1. */
  function LostSequenceNumbers(responses: seq<Response>, transmitted: int): seq<int>
  {
    Missing(Seen(responses), 1, transmitted)
  }

  /** find_lost_sequence_numbers(results): None where results holds no summary to read 'transmitted' from. */
  function FindLostSequenceNumbers(r: PingResult): Option<seq<int>>
  {
    match r.summary
    case None => None
    case Some(s) => Some(LostSequenceNumbers(r.responses, s.transmitted))
  }

  predicate Ascending(s: seq<int>)
  {
    forall i, j :: 0 <= i < j < |s| ==> s[i] < s[j]
  }

  /** A number is missing exactly when it lies in lo..hi and is not seen; the missing numbers ascend. */
  lemma {:induction false} MissingSpec(seen: set<int>, lo: int, hi: int)
    ensures forall x :: x in Missing(seen, lo, hi) <==> lo <= x <= hi && x !in seen
    ensures Ascending(Missing(seen, lo, hi))
    decreases hi - lo
  {
    if lo <= hi {
      MissingSpec(seen, lo + 1, hi);
      var head: seq<int> := if lo in seen then [] else [lo];
      var rest := Missing(seen, lo + 1, hi);
      var m := head + rest;
      assert Missing(seen, lo, hi) == m;
      forall x ensures x in m <==> lo <= x <= hi && x !in seen {
        assert x in m <==> x in head || x in rest;
      }
      forall i, j | 0 <= i < j < |m| ensures m[i] < m[j] {
        if i < |head| {
          assert m[j] == rest[j - |head|] && m[j] in rest;
        } else {
          assert m[i] == rest[i - |head|] && m[j] == rest[j - |head|];
        }
      }
    }
  }

  /**
   * The lost numbers ascend strictly, lie within 1..transmitted, and are
   * exactly the numbers there that no response carries.
   */
  lemma {:induction false} LostSpec(responses: seq<Response>, transmitted: int)
    ensures var lost := LostSequenceNumbers(responses, transmitted);
            && Ascending(lost)
            && (forall k :: 0 <= k < |lost| ==> 1 <= lost[k] <= transmitted)
            && (forall k :: 0 <= k < |lost| ==> lost[k] !in Seen(responses))
            && (forall x :: 1 <= x <= transmitted && x !in Seen(responses) ==> x in lost)
  {
    MissingSpec(Seen(responses), 1, transmitted);
    var lost := LostSequenceNumbers(responses, transmitted);
    forall k | 0 <= k < |lost| ensures 1 <= lost[k] <= transmitted && lost[k] !in Seen(responses) {
      assert lost[k] in lost;
    }
  }

  /** The seen numbers within lo..hi. */
  function SeenWithin(seen: set<int>, lo: int, hi: int): set<int>
  {
    set x | x in seen && lo <= x <= hi
  }

  /** Every number in lo..hi is either missing or seen, never both. */
  lemma {:induction false} MissingCount(seen: set<int>, lo: int, hi: int)
    requires lo <= hi + 1
    ensures |Missing(seen, lo, hi)| + |SeenWithin(seen, lo, hi)| == hi - lo + 1
    decreases hi - lo
  {
    if lo <= hi {
      MissingCount(seen, lo + 1, hi);
      var here := SeenWithin(seen, lo, hi);
      var later := SeenWithin(seen, lo + 1, hi);
      if lo in seen {
        assert here == later + {lo};
        assert lo !in later;
      } else {
        assert here == later;
      }
    } else {
      assert SeenWithin(seen, lo, hi) == {};
    }
  }

  /** Distinct sequence numbers: as many numbers seen as responses. */
  lemma {:induction false} SeenDistinct(responses: seq<Response>)
    requires forall i, j :: 0 <= i < j < |responses| ==> responses[i].icmpSeq != responses[j].icmpSeq
    ensures |Seen(responses)| == |responses|
  {
    if responses != [] {
      var init := responses[..|responses| - 1];
      var last := responses[|responses| - 1].icmpSeq as int;
      SeenDistinct(init);
      assert Seen(responses) == Seen(init) + {last} by {
        forall x | x in Seen(responses) ensures x in Seen(init) + {last} {
          var k :| 0 <= k < |responses| && responses[k].icmpSeq as int == x;
          if k < |init| {
            assert init[k] == responses[k];
          }
        }
        forall x | x in Seen(init) ensures x in Seen(responses) {
          var k :| 0 <= k < |init| && init[k].icmpSeq as int == x;
          assert responses[k] == init[k];
        }
      }
      forall k | 0 <= k < |init| ensures init[k].icmpSeq as int != last {
        assert init[k] == responses[k];
      }
    }
  }

  /**
   * When the responses carry distinct sequence numbers within
   * 1..transmitted, the lost numbers and the responses add up to the number
   * of probes transmitted.
   */
  lemma {:induction false} LostCount(responses: seq<Response>, transmitted: int)
    requires transmitted >= 0
    requires forall i, j :: 0 <= i < j < |responses| ==> responses[i].icmpSeq != responses[j].icmpSeq
    requires forall k :: 0 <= k < |responses| ==> 1 <= responses[k].icmpSeq <= transmitted
    ensures |LostSequenceNumbers(responses, transmitted)| + |responses| == transmitted
  {
    var seen := Seen(responses);
    MissingCount(seen, 1, transmitted);
    SeenDistinct(responses);
    assert SeenWithin(seen, 1, transmitted) == seen by {
      forall x | x in seen ensures 1 <= x <= transmitted {
        var k :| 0 <= k < |responses| && responses[k].icmpSeq as int == x;
      }
    }
  }

  // ---------------------------------------------------------------------------
  // The cases of test.py
  // ---------------------------------------------------------------------------

  /** A result as the tests write it: responses (seq, 64, 0) and a summary with transmitted and received. */
  function Scenario(seqs: seq<nat>, transmitted: nat, received: nat): PingResult
  {
    PingResult(seq(|seqs|, k requires 0 <= k < |seqs| => Response(seqs[k], 64, Zero)),
               Some(Summary(transmitted, received, 0, Zero)), None)
  }

  /** The numbers a scenario's responses carry are the numbers it lists. */
  lemma {:induction false} ScenarioSeen(seqs: seq<nat>, transmitted: nat, received: nat)
    ensures forall x :: x in Seen(Scenario(seqs, transmitted, received).responses) <==> x >= 0 && x in seqs
  {
    var rs := Scenario(seqs, transmitted, received).responses;
    forall x | x in Seen(rs) ensures x >= 0 && x in seqs {
      var k :| 0 <= k < |rs| && rs[k].icmpSeq as int == x;
      assert seqs[k] == x;
    }
    forall x | x >= 0 && x in seqs ensures x in Seen(rs) {
      var k :| 0 <= k < |seqs| && seqs[k] == x;
      assert rs[k].icmpSeq as int == x;
    }
  }

  /** Two ascending sequences with the same members are the same sequence. */
  lemma {:induction false} AscendingUnique(a: seq<int>, b: seq<int>)
    requires Ascending(a) && Ascending(b)
    requires forall x :: x in a <==> x in b
    ensures a == b
    decreases |a|
  {
    assert a != [] ==> a[0] in a;
    assert b != [] ==> b[0] in b;
    if a != [] && b != [] {
      var i :| 0 <= i < |b| && b[i] == a[0];
      var j :| 0 <= j < |a| && a[j] == b[0];
      assert a[0] <= a[j] == b[0] && b[0] <= b[i] == a[0];
      forall x ensures x in a[1..] <==> x in b[1..] {
        if x in a[1..] {
          var k :| 1 <= k < |a| && a[k] == x;
          assert a[0] < x;
          assert x in b;
        }
        if x in b[1..] {
          var k :| 1 <= k < |b| && b[k] == x;
          assert b[0] < x;
          assert x in a;
        }
      }
      AscendingUnique(a[1..], b[1..]);
      assert a == [a[0]] + a[1..] && b == [b[0]] + b[1..];
    }
  }

  /** The lost numbers are the one ascending sequence of the numbers in 1..transmitted that no response carries. */
  lemma {:induction false} LostFromMembers(responses: seq<Response>, transmitted: int, expected: seq<int>)
    requires Ascending(expected)
    requires forall x :: x in expected <==> 1 <= x <= transmitted && x !in Seen(responses)
    ensures LostSequenceNumbers(responses, transmitted) == expected
  {
    MissingSpec(Seen(responses), 1, transmitted);
    AscendingUnique(LostSequenceNumbers(responses, transmitted), expected);
  }

  /** No lost packets. */
  lemma {:induction false} Test1()
    ensures FindLostSequenceNumbers(Scenario([1, 2, 3, 4], 4, 4)) == Some([])
  {
    var responses := Scenario([1, 2, 3, 4], 4, 4).responses;
    ScenarioSeen([1, 2, 3, 4], 4, 4);
    assert forall x: int :: x in Seen(responses) <==> x == 1 || x == 2 || x == 3 || x == 4;
    LostFromMembers(responses, 4, []);
  }

  /** The first packet lost. */
  lemma {:induction false} Test2()
    ensures FindLostSequenceNumbers(Scenario([2, 3], 3, 2)) == Some([1])
  {
    var responses := Scenario([2, 3], 3, 2).responses;
    ScenarioSeen([2, 3], 3, 2);
    assert forall x: int :: x in Seen(responses) <==> x == 2 || x == 3;
    assert forall x: int :: x in [1] <==> x == 1;
    LostFromMembers(responses, 3, [1]);
  }

  /** The first three packets lost. */
  lemma {:induction false} Test3()
    ensures FindLostSequenceNumbers(Scenario([4, 5, 6], 6, 3)) == Some([1, 2, 3])
  {
    var responses := Scenario([4, 5, 6], 6, 3).responses;
    ScenarioSeen([4, 5, 6], 6, 3);
    assert forall x: int :: x in Seen(responses) <==> x == 4 || x == 5 || x == 6;
    assert forall x: int :: x in [1, 2, 3] <==> x == 1 || x == 2 || x == 3;
    LostFromMembers(responses, 6, [1, 2, 3]);
  }

  /** One packet lost in the middle. */
  lemma {:induction false} Test4()
    ensures FindLostSequenceNumbers(Scenario([1, 2, 4], 4, 3)) == Some([3])
  {
    var responses := Scenario([1, 2, 4], 4, 3).responses;
    ScenarioSeen([1, 2, 4], 4, 3);
    assert forall x: int :: x in Seen(responses) <==> x == 1 || x == 2 || x == 4;
    assert forall x: int :: x in [3] <==> x == 3;
    LostFromMembers(responses, 4, [3]);
  }

  /** One packet lost at the end. */
  lemma {:induction false} Test5()
    ensures FindLostSequenceNumbers(Scenario([1, 2, 3], 4, 3)) == Some([4])
  {
    var responses := Scenario([1, 2, 3], 4, 3).responses;
    ScenarioSeen([1, 2, 3], 4, 3);
    assert forall x: int :: x in Seen(responses) <==> x == 1 || x == 2 || x == 3;
    assert forall x: int :: x in [4] <==> x == 4;
    LostFromMembers(responses, 4, [4]);
  }

  /** Three packets lost at the end. */
  lemma {:induction false} Test6()
    ensures FindLostSequenceNumbers(Scenario([1, 2, 3], 6, 3)) == Some([4, 5, 6])
  {
    var responses := Scenario([1, 2, 3], 6, 3).responses;
    ScenarioSeen([1, 2, 3], 6, 3);
    assert forall x: int :: x in Seen(responses) <==> x == 1 || x == 2 || x == 3;
    assert forall x: int :: x in [4, 5, 6] <==> x == 4 || x == 5 || x == 6;
    LostFromMembers(responses, 6, [4, 5, 6]);
  }

  /** Losses at the start, in the middle and at the end. */
  lemma {:induction false} Test7()
    ensures FindLostSequenceNumbers(Scenario([2, 3, 5, 6, 8, 9], 12, 6)) == Some([1, 4, 7, 10, 11, 12])
  {
    var responses := Scenario([2, 3, 5, 6, 8, 9], 12, 6).responses;
    ScenarioSeen([2, 3, 5, 6, 8, 9], 12, 6);
    assert forall x: int :: x in Seen(responses) <==> x == 2 || x == 3 || x == 5 || x == 6 || x == 8 || x == 9;
    assert forall x: int :: x in [1, 4, 7, 10, 11, 12] <==> x == 1 || x == 4 || x == 7 || x == 10 || x == 11 || x == 12;
    LostFromMembers(responses, 12, [1, 4, 7, 10, 11, 12]);
  }
}
