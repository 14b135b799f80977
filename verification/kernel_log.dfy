/** What adb_read and adb_write answered, call by call. */
module KernelLog {
  import opened AdbBase

  const EAGAIN: int := -1
  const EIO: int := -2

  /** One call: the bytes that went through, and the result: their number, or 0, EAGAIN or an error. */
  datatype Answer = Answer(data: Bytes, r: int)

  /** All the bytes that went through. */
  function Given(log: seq<Answer>): Bytes {
    if log == [] then [] else log[0].data + Given(log[1..])
  }

  predicate Good(a: Answer) { a.r > 0 }

  predicate Sound(a: Answer) { EIO <= a.r && |a.data| == (if a.r > 0 then a.r else 0) }

  /** The last answer was 0 or an error that will not go away. */
  predicate Ended(log: seq<Answer>) { log != [] && !Good(log[|log| - 1]) && log[|log| - 1].r != EAGAIN }

  /** The last answer was that the call would block. */
  predicate Blocked(log: seq<Answer>) { log != [] && log[|log| - 1].r == EAGAIN }

  /** A loop with so much to do went on until all was done, or the descriptor would block, had ended or failed. */
  predicate Exhausted(done: nat, wanted: nat, log: seq<Answer>) { done >= wanted || Ended(log) || Blocked(log) }

  /** A loop that goes on while the answers are good, and no longer. */
  predicate OneLoop(log: seq<Answer>) {
    && (forall k :: 0 <= k < |log| ==> Sound(log[k]))
    && (forall k :: 0 <= k < |log| - 1 ==> Good(log[k]))
  }

  /** The answers since the log was `before`. */
  function Since(before: seq<Answer>, now: seq<Answer>): seq<Answer> {
    if before <= now then now[|before|..] else []
  }

  lemma {:induction false} GivenAppend(log: seq<Answer>, a: Answer)
    ensures Given(log + [a]) == Given(log) + a.data
  {
    if log == [] {
      assert log + [a] == [a] && Given([a][1..]) == [];
    } else {
      assert (log + [a])[1..] == log[1..] + [a];
      GivenAppend(log[1..], a);
    }
  }

  /** One more answer in a loop that has had none but good ones. */
  lemma {:induction false} OneMore(before: seq<Answer>, now: seq<Answer>, a: Answer)
    requires before <= now && OneLoop(Since(before, now)) && Sound(a)
    requires forall k :: 0 <= k < |Since(before, now)| ==> Good(Since(before, now)[k])
    ensures var log := Since(before, now + [a]);
            && before <= now + [a] && OneLoop(log) && Given(log) == Given(Since(before, now)) + a.data
            && (Good(a) ==> !Ended(log) && !Blocked(log) && forall k :: 0 <= k < |log| ==> Good(log[k]))
            && (!Good(a) ==> log != [] && (Ended(log) <==> a.r != EAGAIN) && (Blocked(log) <==> a.r == EAGAIN))
  {
    assert Since(before, now + [a]) == Since(before, now) + [a];
    GivenAppend(Since(before, now), a);
  }

  lemma NothingSince(log: seq<Answer>)
    ensures Since(log, log) == [] && Given([]) == [] && !Ended([]) && OneLoop([])
  {
  }
}
