/**
  Deferred calls in the source's own form: call objects taken from a pool, an exit
  list that appends and swaps, and a session's freed flag. One call at a time;
  the interleavings are those of module ExitCalls.
 */
module Defer {
  import opened Wrappers
  import opened ExitCalls

  class ExecCall {
    /** Function and arguments, which are always set and cleared together. */
    var call: Option<Call>

    constructor ()
      ensures call == None
    {
      call := None;
    }

    /** None stands for a call that the source's checks refuse; the object then keeps what it had. */
    method Func(c: Option<Call>) returns (ok: bool)
      modifies this
      ensures ok == c.Some?
      ensures call == if ok then c else old(call)
    {
      if c.None? {
        return false;
      }
      call := c;
      return true;
    }

    /** The call that an execution runs; a blank object runs nothing. */
    function Exec(): seq<Call>
      reads this
    {
      if call.Some? then [call.value] else []
    }
  }

  class CallPool {
    var free: set<ExecCall>

    ghost predicate Valid()
      reads this, free
    {
      forall o <- free :: o.call == None
    }

    constructor ()
      ensures free == {} && Valid()
    {
      free := {};
    }

    /** Some object of the pool, or a new one. */
    method Get() returns (o: ExecCall)
      requires Valid()
      modifies this
      ensures Valid() && o.call == None && o !in free
      ensures free == old(free) - {o} && (fresh(o) || o in old(free))
    {
      if free == {} {
        o := new ExecCall();
      } else {
        o :| o in free;
        free := free - {o};
      }
    }

    method Put(o: ExecCall)
      requires Valid() && o.call == None
      modifies this
      ensures Valid() && free == old(free) + {o}
    {
      free := free + {o};
    }
  }

  class ExitCall {
    var efs: seq<ExecCall>

    /** Pending objects are distinct, filled and not in the pool, whose objects are blank. */
    ghost predicate Valid(pool: CallPool)
      reads this, efs, pool, pool.free
    {
      && pool.Valid()
      && (forall i | 0 <= i < |efs| :: efs[i].call.Some? && efs[i] !in pool.free)
      && (forall i, j | 0 <= i < j < |efs| :: efs[i] != efs[j])
    }

    ghost function Calls(): (r: seq<Call>)
      reads this, efs
      requires forall i | 0 <= i < |efs| :: efs[i].call.Some?
      ensures |r| == |efs|
    {
      seq(|efs|, i requires 0 <= i < |efs| reads this, efs => if efs[i].call.Some? then efs[i].call.value else 0)
    }

    constructor ()
      ensures efs == []
    {
      efs := [];
    }

    method Defer(pool: CallPool, call: Option<Call>) returns (ok: bool)
      requires Valid(pool)
      modifies this, pool, pool.free
      ensures Valid(pool) && ok == call.Some?
      ensures Calls() == if ok then old(Calls()) + [call.value] else old(Calls())
      ensures efs[..|old(efs)|] == old(efs)
    {
      var df := pool.Get();
      ghost var was := efs;
      ok := df.Func(call);
      if !ok {
        pool.Put(df);
        return;
      }
      efs := efs + [df];
      assert efs[..|was|] == was;
      assert Calls() == old(Calls()) + [call.value];
    }

    /** Runs what was pending, newest first, and gives every object back, blank. */
    method Free(pool: CallPool) returns (ran: seq<Call>)
      requires Valid(pool)
      modifies this, pool, efs
      ensures Valid(pool) && efs == []
      ensures ran == Reverse(old(Calls()))
      ensures forall o :: o in pool.free <==> o in old(pool.free) || o in old(efs)
    {
      var calls := efs;
      efs := [];
      ran := RunBackwards(calls, pool, old(Calls()));
    }
  }

  /** The loop of Free over the calls it took. */
  method RunBackwards(calls: seq<ExecCall>, pool: CallPool, ghost all: seq<Call>) returns (ran: seq<Call>)
    requires pool.Valid() && |all| == |calls|
    requires forall i | 0 <= i < |calls| :: calls[i].call == Some(all[i]) && calls[i] !in pool.free
    requires forall i, j | 0 <= i < j < |calls| :: calls[i] != calls[j]
    modifies pool, calls
    ensures pool.Valid() && ran == Reverse(all)
    ensures forall o :: o in pool.free <==> o in old(pool.free) || o in calls
  {
    ran := [];
    var i := |calls|;
    while i > 0
      invariant 0 <= i <= |calls|
      invariant pool.Valid() && forall o :: o in pool.free <==> o in old(pool.free) || o in calls[i..]
      invariant forall j | 0 <= j < i :: calls[j].call == Some(all[j])
      invariant |ran| == |calls| - i && forall k | 0 <= k < |ran| :: ran[k] == all[|all| - 1 - k]
    {
      i := i - 1;
      assert calls[i..] == [calls[i]] + calls[i + 1..];
      ran := ran + calls[i].Exec();
      calls[i].call := None;
      pool.Put(calls[i]);
    }
    forall k | 0 <= k < |ran| ensures ran[k] == Reverse(all)[k] {
      ReverseAt(all, k);
    }
  }

  class Session {
    const exitCall: ExitCall
    var freed: bool

    constructor ()
      ensures !freed && fresh(exitCall) && exitCall.efs == []
    {
      exitCall := new ExitCall();
      freed := false;
    }

    method Defer(pool: CallPool, call: Option<Call>) returns (ok: bool)
      requires exitCall.Valid(pool)
      modifies exitCall, pool, pool.free
      ensures exitCall.Valid(pool) && ok == (!freed && call.Some?)
      ensures exitCall.Calls() == if ok then old(exitCall.Calls()) + [call.value] else old(exitCall.Calls())
    {
      if freed {
        return false;
      }
      ok := exitCall.Defer(pool, call);
    }

    method Free(pool: CallPool) returns (ran: seq<Call>)
      requires exitCall.Valid(pool)
      modifies this, exitCall, pool, exitCall.efs
      ensures exitCall.Valid(pool) && freed && exitCall.efs == []
      ensures ran == Reverse(old(exitCall.Calls()))
    {
      freed := true;
      ran := exitCall.Free(pool);
    }
  }
}
