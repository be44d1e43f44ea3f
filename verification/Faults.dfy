/** A count of the commands that a server or the connection to it has refused. It exists for contracts only: they
    say that an error which the data does not explain comes from a refused command. */
module Faults {

  class FaultLog {
    ghost var count: nat

    constructor ()
    {
    }

    /** A command that may be refused. */
    method Send() returns (broken: bool)
      modifies this
      ensures count == old(count) + if broken then 1 else 0
    {
      broken := *;
      if broken {
        count := count + 1;
      }
    }

    /** The count never falls, and it rose if the call failed for no other reason. */
    twostate predicate Explain(failed: bool)
      reads this
    {
      old(count) <= count && (failed ==> old(count) < count)
    }
  }
}
