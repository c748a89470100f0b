/**
 * The queued job (src/Core/Jobs/QueueJob.php): it stores a callable with its
 * arguments and a maximum number of attempts, and handle calls it only while
 * the queue's attempt count has not passed that maximum.
 */
module QueueJobs {
  import opened Php

  /** The queue a job goes on; the default queue's name is not part of this model. */
  datatype QueueName = DefaultQueue | Named(name: string)

  /** Whether handle calls the callable on the given attempt. */
  predicate Runs(currentAttempt: int, maxAttempts: int)
  {
    currentAttempt <= maxAttempts
  }

  /** How many of the attempts 1..tries call the callable. */
  function RunCount(tries: nat, maxAttempts: int): nat
  {
    if tries == 0 then 0 else RunCount(tries - 1, maxAttempts) + (if Runs(tries, maxAttempts) then 1 else 0)
  }

  /** Retrying never calls the callable more often than the maximum number of attempts. */
  lemma {:induction false} RunCountIsCapped(tries: nat, maxAttempts: int)
    ensures maxAttempts < 1 ==> RunCount(tries, maxAttempts) == 0
    ensures maxAttempts >= 1 ==> RunCount(tries, maxAttempts) == (if tries <= maxAttempts then tries else maxAttempts)
  {
    if tries > 0 {
      RunCountIsCapped(tries - 1, maxAttempts);
    }
  }

  class QueueJob {
    /** The callable, by name. */
    const callable: string
    const args: seq<Value>
    const maxAttempts: int
    const queue: QueueName
    /** The calls handle has made, oldest first. */
    var calls: seq<(string, seq<Value>)>

    /** The constructor: by default no arguments, the default queue and one attempt. */
    constructor (callable: string, args: seq<Value> := [], queue: QueueName := DefaultQueue, attempts: int := 1)
      ensures this.callable == callable && this.args == args && this.maxAttempts == attempts
      ensures this.queue == queue && calls == []
    {
      this.callable := callable;
      this.args := args;
      this.maxAttempts := attempts;
      this.queue := queue;
      calls := [];
    }

    /** handle: calls the callable with its arguments when the attempt count is at most the maximum. */
    method Handle(currentAttempt: int)
      modifies this
      ensures calls == old(calls) + (if Runs(currentAttempt, maxAttempts) then [(callable, args)] else [])
    {
      if currentAttempt <= maxAttempts {
        calls := calls + [(callable, args)];
      }
    }
  }

  /** A job made with the defaults runs on its first attempt only. */
  lemma DefaultJobRunsOnce(tries: nat)
    requires tries >= 1
    ensures RunCount(tries, 1) == 1
  {
    RunCountIsCapped(tries, 1);
  }
}
