/**
  The freed flag of a session: what a Free can leave behind, and when.
 */
module FreedFlag {
  import opened Wrappers
  import opened ExitCalls

  /** The thread is in a `Defer` on `x`, past the check of the flag. */
  predicate Deferring(th: Thread, x: Id) {
    (th.Getting? || th.Holding? || th.Filled?) && th.x == x
  }

  /** Past the check, and with a call that is not refused: it will append one. */
  predicate Pledged(th: Thread, x: Id) {
    Deferring(th, x) && (th.Filled? || th.call.Some?)
  }

  /** Every new `Defer` on `x` goes through the session, and so reads its flag. */
  predicate Guarded(events: seq<Event>, x: Id) {
    forall e <- events :: e.StartDefer? && e.x == x ==> e.guarded
  }

  /** All is quiet, yet a call is pending on `x`. */
  ghost predicate LeavesCall(s: State, x: Id) {
    Efs(s, x) != [] && forall t :: ThreadOf(s, t).Idle?
  }

  lemma AfterSnoc(events: seq<Event>, e: Event)
    ensures After(events + [e]) == Next(After(events), e)
  {
    assert (events + [e])[..|events|] == events;
  }

  // ---------------------------------------------------------------------
  // Without a pledge nothing is left
  // ---------------------------------------------------------------------

  /** Freed, with no pledge, and a Free still to come for whatever is pending. */
  ghost predicate Barren(s: State, x: Id) {
    && x in s.freed
    && (forall u :: !Pledged(ThreadOf(s, u), x))
    && (Efs(s, x) == [] || exists u :: ThreadOf(s, u) == Flagged(x))
  }

  lemma BarrenStep(s: State, e: Event, x: Id)
    requires Barren(s, x) && (e.StartDefer? && e.x == x ==> e.guarded)
    ensures Barren(Next(s, e), x)
  {
    var n := Next(s, e);
    if Enabled(s, e) {
      forall u ensures !Pledged(ThreadOf(n, u), x) {
        assert !Pledged(ThreadOf(s, u), x);
      }
      if e.Append? { assert !Pledged(ThreadOf(s, e.t), x); }
      if Efs(s, x) != [] {
        var u :| ThreadOf(s, u) == Flagged(x);
        if !e.Drop? && u == e.t {
          assert Efs(n, x) == [];
        } else {
          assert ThreadOf(n, u) == Flagged(x);
        }
      }
    }
  }

  lemma {:induction false} BarrenAfter(events: seq<Event>, more: seq<Event>, x: Id)
    requires Barren(After(events), x) && Guarded(more, x)
    ensures Barren(After(events + more), x)
    decreases |more|
  {
    if more == [] {
      assert events + more == events;
    } else {
      var front, e := more[..|more| - 1], more[|more| - 1];
      assert forall f <- front :: f in more;
      hide Barren;
      BarrenAfter(events, front, x);
      assert events + more == events + front + [e];
      AfterSnoc(events + front, e);
      BarrenStep(After(events + front), e, x);
    }
  }

  // ---------------------------------------------------------------------
  // Every thread can finish
  // ---------------------------------------------------------------------

  /** Steps that a thread has still to take. */
  function Measure(s: State, t: Id): nat {
    var th := ThreadOf(s, t);
    match th
    case Idle => 0
    case Getting(_, _) => 3
    case Holding(_, _, _) => 2
    case Filled(_, _) => 1
    case Flagged(x) => 1 + 3 * |Efs(s, x)|
    case Draining(_, calls, phase) =>
      if calls == [] then 1
      else 3 * |calls| - match phase case ToRun => 0 case ToClear => 1 case ToPut => 2
  }

  /** The next step of a thread that is not idle; a pledge is kept until it is redeemed. */
  lemma NextOf(s: State, t: Id) returns (e: Event)
    requires Inv(s) && !ThreadOf(s, t).Idle?
    ensures Enabled(s, e) && !e.StartDefer? && !e.StartFree? && !e.Drop? && e.t == t
    ensures Measure(Next(s, e), t) < Measure(s, t)
    ensures forall x | Pledged(ThreadOf(s, t), x) ::
              Pledged(ThreadOf(Next(s, e), t), x) || (ThreadOf(Next(s, e), t).Idle? && Efs(Next(s, e), x) != [])
  {
    match ThreadOf(s, t)
    case Getting(_, _) =>
      var obj := FreshId(s.cell.Keys);
      e := Get(t, obj);
    case Holding(_, _, _) => e := Fill(t);
    case Filled(_, _) => e := Append(t);
    case Flagged(_) => e := Swap(t);
    case Draining(_, _, phase) =>
      assert DrainOk(s.batches, ThreadOf(s, t));
      match phase
      case ToRun => e := Run(t);
      case ToClear => e := Clear(t);
      case ToPut => e := Put(t);
  }

  lemma OthersWait(s: State, e: Event, u: Id)
    requires !e.Drop? ==> u != e.t
    ensures ThreadOf(Next(s, e), u) == ThreadOf(s, u)
  {
  }

  /** A thread can run to its end by itself. */
  lemma {:induction false} FinishOne(events: seq<Event>, t: Id) returns (more: seq<Event>)
    ensures forall e <- more :: !e.StartDefer?
    ensures var n := After(events + more);
      && ThreadOf(n, t).Idle?
      && (forall u | u != t :: ThreadOf(n, u) == ThreadOf(After(events), u))
      && (forall x | Pledged(ThreadOf(After(events), t), x) :: Efs(n, x) != [])
    ensures ThreadOf(After(events), t).Idle? ==> more == []
    decreases Measure(After(events), t)
  {
    var s := After(events);
    if ThreadOf(s, t).Idle? {
      more := [];
      assert events + more == events;
    } else {
      InvAfter(events);
      var e := NextOf(s, t);
      hide After, Next, Measure, Efs, Inv, Enabled;
      AfterSnoc(events, e);
      var rest := FinishOne(events + [e], t);
      more := [e] + rest;
      assert events + more == events + [e] + rest;
      assert ThreadOf(Next(s, e), t).Idle? ==> events + [e] + rest == events + [e];
      forall u | u != t ensures ThreadOf(After(events + more), u) == ThreadOf(s, u) {
        OthersWait(s, e, u);
      }
    }
  }

  /** So can any set of threads, one after the other. */
  lemma {:induction false} FinishSet(events: seq<Event>, ts: set<Id>) returns (more: seq<Event>)
    ensures forall e <- more :: !e.StartDefer?
    ensures var n := After(events + more);
      forall u :: if u in ts then ThreadOf(n, u).Idle? else ThreadOf(n, u) == ThreadOf(After(events), u)
    decreases ts
  {
    hide After;
    if ts == {} {
      more := [];
      assert events + more == events;
    } else {
      var t :| t in ts;
      var one := FinishOne(events, t);
      var rest := FinishSet(events + one, ts - {t});
      more := one + rest;
      assert events + more == events + one + rest;
    }
  }

  // ---------------------------------------------------------------------
  // The exact condition
  // ---------------------------------------------------------------------

  /** When a session's Free is about to take what is pending, the run can still go on so that all is quiet
      with a call left behind, exactly when some Defer is past its check with a call that is not refused. */
  lemma FreeLeavesCall(events: seq<Event>, t: Id, x: Id)
    requires x in After(events).freed && ThreadOf(After(events), t) == Flagged(x)
    ensures (exists more :: Guarded(more, x) && LeavesCall(After(events + more), x))
       <==> exists u :: Pledged(ThreadOf(After(events), u), x)
  {
    var s := After(events);
    if u :| Pledged(ThreadOf(s, u), x) {
      var others := FinishSet(events, s.threads.Keys - {u});
      var last := FinishOne(events + others, u);
      var more := others + last;
      assert events + more == events + others + last;
      assert LeavesCall(After(events + more), x);
      assert Guarded(more, x);
    } else {
      assert Barren(s, x);
      forall more | Guarded(more, x) ensures !LeavesCall(After(events + more), x) {
        BarrenAfter(events, more, x);
      }
    }
  }

  /** Freed, with nothing pending and no pledge: no session call will ever leave anything here. */
  ghost predicate Sealed(s: State, x: Id) {
    x in s.freed && Efs(s, x) == [] && forall u :: !Pledged(ThreadOf(s, u), x)
  }

  lemma {:induction false} SealedStays(events: seq<Event>, more: seq<Event>, x: Id)
    requires Sealed(After(events), x) && Guarded(more, x)
    ensures Sealed(After(events + more), x)
    decreases |more|
  {
    if more == [] {
      assert events + more == events;
    } else {
      var front, e := more[..|more| - 1], more[|more| - 1];
      assert forall f <- front :: f in more;
      hide Sealed;
      SealedStays(events, front, x);
      assert events + more == events + front + [e];
      AfterSnoc(events + front, e);
      SealedStep(After(events + front), e, x);
    }
  }

  lemma SealedStep(s: State, e: Event, x: Id)
    requires Sealed(s, x) && (e.StartDefer? && e.x == x ==> e.guarded)
    ensures Sealed(Next(s, e), x)
  {
    var n := Next(s, e);
    forall t ensures !Pledged(ThreadOf(n, t), x) {
      assert !Pledged(ThreadOf(s, t), x);
    }
    if Enabled(s, e) && e.Append? { assert !Pledged(ThreadOf(s, e.t), x); }
  }

  const LATE: seq<Event> := [
    StartDefer(0, 0, Some(7), true), StartFree(1, 0, true), Swap(1), Get(0, 0), Fill(0), Append(0)]

  lemma LateHalf()
    ensures After(LATE[..3]) ==
      State({}, map[], map[0 := []], {0}, map[0 := Getting(0, Some(7)), 1 := Idle], [Batch(0, [], [])], map[])
  {
    var s1 := State({}, map[], map[], {}, map[0 := Getting(0, Some(7))], [], map[]);
    var s2 := State({}, map[], map[], {0}, map[0 := Getting(0, Some(7)), 1 := Flagged(0)], [], map[]);
    assert LATE[..1][..0] == [] && LATE[..2][..1] == LATE[..1] && LATE[..3][..2] == LATE[..2];
    assert After(LATE[..1]) == s1;
    assert After(LATE[..2]) == s2;
    assert CallsOf(map[], []) == [];
  }

  lemma LateRest()
    ensures After(LATE[..5]) ==
      State({}, map[0 := Some(7)], map[0 := []], {0}, map[0 := Filled(0, 0), 1 := Idle], [Batch(0, [], [])], map[])
  {
    LateHalf();
    var s3 := After(LATE[..3]);
    var s4 := s3.(cell := map[0 := None], threads := map[0 := Holding(0, Some(7), 0), 1 := Idle]);
    assert LATE[..4][..3] == LATE[..3] && LATE[..5][..4] == LATE[..4];
    assert After(LATE[..4]) == s4;
  }

  /** The flag does not stop a Defer that read it before Free set it: after this run every thread is
      idle and the session is freed, yet a call is pending that no Free will take. */
  lemma LateDefer()
    ensures var s := After(LATE);
      && 0 in s.freed && (forall t :: ThreadOf(s, t).Idle?)
      && Efs(s, 0) == [0] && s.cell == map[0 := Some(7)] && Registered(s, 0) == [7] && s.batches == [Batch(0, [], [])]
  {
    LateRest();
    var s5 := After(LATE[..5]);
    assert LATE[..5] == LATE[..|LATE| - 1];
    assert CallsOf(s5.cell, [0]) == [7];
  }
}
