/**
  The session table: creation, lookup with sliding expiry, replacement, deletion
  and the sweeper. Every operation is atomic and is given its clock readings.
 */
module Sessions {
  import opened Wrappers

  /** Names of session objects. */
  type Id = nat

  datatype Entry = Entry(session: Id, recent: int)

  /** The table, the tokens of the session objects, how often each has been freed,
      and, for the record, how often each has been stored. */
  datatype State = State(
    ss: map<string, Entry>,
    token: map<Id, string>,
    freed: multiset<Id>,
    stored: multiset<Id>)

  const START := State(map[], map[], multiset{}, multiset{})

  /** The token of a session that was never stored is empty. */
  function Token(s: State, session: Id): string { if session in s.token then s.token[session] else "" }

  predicate Dead(expired: int, e: Entry, now: int) { expired != 0 && now > e.recent + expired }

  /** The entries that a sweep at `now` removes. */
  function DeadPart(expired: int, ss: map<string, Entry>, now: int): map<string, Entry> {
    map id | id in ss && Dead(expired, ss[id], now) :: ss[id]
  }

  /** The sessions of a table, each as often as it is stored in it. */
  ghost function InTable(ss: map<string, Entry>): multiset<Id> {
    if ss == map[] then multiset{}
    else
      var id :| id in ss;
      multiset{ss[id].session} + InTable(ss - {id})
  }

  // ---------------------------------------------------------------------
  // The operations
  // ---------------------------------------------------------------------

  /** What GetSession finds at `at`. */
  function Found(expired: int, s: State, id: string, at: int): Option<Id> {
    if id in s.ss && !Dead(expired, s.ss[id], at) then Some(s.ss[id].session) else None
  }

  ghost function GetAfter(expired: int, s: State, id: string, at: int, later: int): State {
    if id !in s.ss then s
    else if Dead(expired, s.ss[id], at) then s.(ss := s.ss - {id}, freed := s.freed + multiset{s.ss[id].session})
    else s.(ss := s.ss[id := s.ss[id].(recent := later)])
  }

  ghost function SetAfter(s: State, id: string, session: Id, at: int): State {
    if id in s.ss && Token(s, s.ss[id].session) == Token(s, session) then s
    else
      State(
        s.ss[id := Entry(session, at)],
        s.token[session := id],
        s.freed + (if id in s.ss then multiset{s.ss[id].session} else multiset{}),
        s.stored + multiset{session})
  }

  ghost function DelAfter(s: State, id: string): State {
    if id !in s.ss then s else s.(ss := s.ss - {id}, freed := s.freed + multiset{s.ss[id].session})
  }

  ghost function SweepAfter(expired: int, s: State, at: int): State {
    var dead := DeadPart(expired, s.ss, at);
    s.(ss := s.ss - dead.Keys, freed := s.freed + InTable(dead))
  }

  ghost function ClearAfter(s: State): State {
    s.(ss := map[], freed := s.freed + InTable(s.ss))
  }

  /** An operation with its readings of the clock, at most two. */
  datatype Op =
    | Get(id: string, at: int, later: int)
    | New(id: string, session: Id, at: int, later: int)
    | Set(id: string, session: Id, at: int, later: int)
    | Del(id: string, at: int, later: int)
    | Sweep(at: int, later: int)
    | Clear(at: int, later: int)

  ghost function AfterOp(expired: int, s: State, op: Op): State {
    match op
    case Get(id, at, later) => GetAfter(expired, s, id, at, later)
    case New(id, session, at, later) =>
      if Found(expired, s, id, at).Some? then GetAfter(expired, s, id, at, later)
      else SetAfter(GetAfter(expired, s, id, at, later), id, session, later)
    case Set(id, session, at, _) => SetAfter(s, id, session, at)
    case Del(id, _, _) => DelAfter(s, id)
    case Sweep(at, _) => SweepAfter(expired, s, at)
    case Clear(_, _) => ClearAfter(s)
  }

  /** The session that the operation returns. */
  function Answer(expired: int, s: State, op: Op): Option<Id> {
    match op
    case Get(id, at, _) => Found(expired, s, id, at)
    case New(id, session, at, _) => Some(Found(expired, s, id, at).UnwrapOr(session))
    case Set(_, session, _, _) => Some(session)
    case _ => None
  }

  ghost function After(expired: int, ops: seq<Op>): State {
    if ops == [] then START else AfterOp(expired, After(expired, ops[..|ops| - 1]), ops[|ops| - 1])
  }

  // ---------------------------------------------------------------------
  // Sliding expiry
  // ---------------------------------------------------------------------

  /** A session that was found stays findable for the expiry time from then on, and no longer. */
  lemma LookupRenews(expired: int, s: State, id: string, at: int, later: int, t: int)
    requires Found(expired, s, id, at).Some?
    ensures Found(expired, GetAfter(expired, s, id, at, later), id, t)
         == if expired == 0 || t <= later + expired then Found(expired, s, id, at) else None
  {
  }

  /** A session that was stored is found for the expiry time from then on, under its id; nothing changes
      if the entry there already has its token. */
  lemma StoreLasts(expired: int, s: State, id: string, session: Id, at: int, t: int)
    ensures var n := SetAfter(s, id, session, at);
      if id in s.ss && Token(s, s.ss[id].session) == Token(s, session) then n == s
      else
        && Found(expired, n, id, t) == (if expired == 0 || t <= at + expired then Some(session) else None)
        && Token(n, session) == id
  {
  }

  predicate SameEntry(s: State, n: State, id: string) {
    if id in s.ss then id in n.ss && n.ss[id] == s.ss[id] else id !in n.ss
  }

  lemma GetOthers(expired: int, s: State, id: string, at: int, later: int, other: string)
    requires id != other
    ensures var n := GetAfter(expired, s, id, at, later); SameEntry(s, n, other) && n.token == s.token
  {
  }

  lemma SetOthers(s: State, id: string, session: Id, at: int, other: string, named: Id)
    requires id != other
    ensures var n := SetAfter(s, id, session, at);
      SameEntry(s, n, other) && (Token(n, named) == Token(s, named) || (named == session && Token(n, named) == id))
  {
  }

  /** An operation on one id leaves the entry of another as it is. The token of a session changes only if
      that very session is stored, and then to the id it is stored under. */
  lemma OthersStay(expired: int, s: State, op: Op, other: string, named: Id)
    requires (op.Get? || op.New? || op.Set? || op.Del?) && op.id != other
    ensures var n := AfterOp(expired, s, op);
      && SameEntry(s, n, other)
      && (Token(n, named) == Token(s, named)
          || ((op.New? || op.Set?) && named == op.session && Token(n, named) == op.id))
  {
    hide GetAfter, SetAfter, Found;
    match op
    case Get(id, at, later) => GetOthers(expired, s, id, at, later, other);
    case New(id, session, at, later) =>
      GetOthers(expired, s, id, at, later, other);
      SetOthers(GetAfter(expired, s, id, at, later), id, session, later, other, named);
    case Set(id, session, at, _) => SetOthers(s, id, session, at, other, named);
    case Del(_, _, _) =>
  }

  // ---------------------------------------------------------------------
  // Counting the sessions of a table
  // ---------------------------------------------------------------------

  lemma InTableFirst(ss: map<string, Entry>) returns (first: string)
    requires ss != map[]
    ensures first in ss && InTable(ss) == multiset{ss[first].session} + InTable(ss - {first})
  {
    first :| first in ss && InTable(ss) == multiset{ss[first].session} + InTable(ss - {first});
  }

  lemma {:induction false} InTableWithout(ss: map<string, Entry>, id: string)
    requires id in ss
    ensures InTable(ss) == multiset{ss[id].session} + InTable(ss - {id})
    decreases |ss|
  {
    hide InTable;
    var first := InTableFirst(ss);
    if first != id {
      InTableWithout(ss - {first}, id);
      InTableWithout(ss - {id}, first);
      assert ss - {first} - {id} == ss - {id} - {first};
    }
  }

  lemma InTableSet(ss: map<string, Entry>, id: string, e: Entry)
    ensures InTable(ss[id := e]) == multiset{e.session} + InTable(ss - {id})
  {
    InTableWithout(ss[id := e], id);
    assert ss[id := e] - {id} == ss - {id};
  }

  lemma {:induction false} InTableSplit(ss: map<string, Entry>, part: map<string, Entry>)
    requires forall id <- part :: id in ss && ss[id] == part[id]
    ensures InTable(ss) == InTable(part) + InTable(ss - part.Keys)
    decreases |part|
  {
    hide InTable;
    if part == map[] {
      NoneInTable();
      assert ss - part.Keys == ss;
    } else {
      var id :| id in part;
      InTableWithout(part, id);
      InTableWithout(ss, id);
      InTableSplit(ss - {id}, part - {id});
      assert ss - {id} - (part - {id}).Keys == ss - part.Keys;
    }
  }

  lemma NoneInTable()
    ensures InTable(map[]) == multiset{}
  {
  }

  // ---------------------------------------------------------------------
  // Every stored session is freed once or still in the table
  // ---------------------------------------------------------------------

  ghost predicate Conserved(s: State) { s.stored == s.freed + InTable(s.ss) }

  lemma GetConserves(expired: int, s: State, id: string, at: int, later: int)
    requires Conserved(s)
    ensures Conserved(GetAfter(expired, s, id, at, later))
  {
    hide InTable;
    if id in s.ss {
      InTableWithout(s.ss, id);
      InTableSet(s.ss, id, s.ss[id].(recent := later));
    }
  }

  lemma SetConserves(s: State, id: string, session: Id, at: int)
    requires Conserved(s)
    ensures Conserved(SetAfter(s, id, session, at))
  {
    hide InTable;
    InTableSet(s.ss, id, Entry(session, at));
    if id in s.ss {
      InTableWithout(s.ss, id);
    } else {
      assert s.ss - {id} == s.ss;
    }
  }

  lemma OpConserves(expired: int, s: State, op: Op)
    requires Conserved(s)
    ensures Conserved(AfterOp(expired, s, op))
  {
    hide InTable, GetAfter, SetAfter;
    match op
    case Get(id, at, later) => GetConserves(expired, s, id, at, later);
    case New(id, session, at, later) =>
      GetConserves(expired, s, id, at, later);
      SetConserves(GetAfter(expired, s, id, at, later), id, session, later);
    case Set(id, session, at, _) => SetConserves(s, id, session, at);
    case Del(id, _, _) => if id in s.ss { InTableWithout(s.ss, id); }
    case Sweep(at, _) => InTableSplit(s.ss, DeadPart(expired, s.ss, at));
    case Clear(_, _) => NoneInTable();
  }

  /** In any run, sessions stored are sessions freed plus sessions in the table, each counted as often
      as it was stored: nothing is freed twice, and nothing is lost unfreed. */
  lemma {:induction false} StoredIsFreedOrInTable(expired: int, ops: seq<Op>)
    ensures Conserved(After(expired, ops))
    decreases |ops|
  {
    hide AfterOp;
    if ops == [] {
      NoneInTable();
    } else {
      StoredIsFreedOrInTable(expired, ops[..|ops| - 1]);
      OpConserves(expired, After(expired, ops[..|ops| - 1]), ops[|ops| - 1]);
    }
  }

  // ---------------------------------------------------------------------
  // What leaves the table, in any run
  // ---------------------------------------------------------------------

  /** A deleted session is not found again, and the one that was stored there has been freed once more. */
  lemma DeletedIsGone(expired: int, ops: seq<Op>, id: string, at: int, later: int)
    ensures var s, n := After(expired, ops), After(expired, ops + [Del(id, at, later)]);
      && (forall t :: Found(expired, n, id, t) == None)
      && (forall t, x | Found(expired, s, id, t) == Some(x) :: n.freed[x] == s.freed[x] + 1)
      && n.stored == s.stored
  {
    NextStep(expired, ops, Del(id, at, later));
    hide After;
  }

  /** After an instant clear nothing is found under any id, and everything ever stored has been freed. */
  lemma ClearedIsGone(expired: int, ops: seq<Op>, at: int, later: int)
    ensures var n := After(expired, ops + [Clear(at, later)]);
      (forall id, t :: Found(expired, n, id, t) == None) && n.freed == n.stored == After(expired, ops).stored
  {
    NextStep(expired, ops, Clear(at, later));
    StoredIsFreedOrInTable(expired, ops);
    hide After;
  }

  /** A lookup that finds a dead entry drops it and frees its session. */
  lemma DeadIsDropped(expired: int, s: State, id: string, at: int, later: int)
    requires id in s.ss && Found(expired, s, id, at) == None
    ensures var n := AfterOp(expired, s, Get(id, at, later));
      && (forall t :: Found(expired, n, id, t) == None)
      && n.freed[s.ss[id].session] == s.freed[s.ss[id].session] + 1
  {
  }

  /** What NewSession returns is found for the expiry time from then on, and no longer. */
  lemma NewLasts(expired: int, s: State, id: string, session: Id, at: int, later: int, t: int)
    ensures var op := New(id, session, at, later);
      Found(expired, AfterOp(expired, s, op), id, t)
        == (if expired == 0 || t <= later + expired then Answer(expired, s, op) else None)
  {
  }

  /** A sweep leaves no dead entry, changes no answer from then on, and frees what it removes. */
  lemma SweepClears(expired: int, s: State, at: int, id: string, t: int)
    requires at <= t
    ensures var n := AfterOp(expired, s, Sweep(at, at));
      && (id in n.ss ==> expired == 0 || at <= n.ss[id].recent + expired)
      && Found(expired, n, id, t) == Found(expired, s, id, t)
      && n.freed + InTable(n.ss) == s.freed + InTable(s.ss) && n.stored == s.stored
  {
    InTableSplit(s.ss, DeadPart(expired, s.ss, at));
    hide InTable;
  }

  // ---------------------------------------------------------------------
  // The sweeper is invisible
  // ---------------------------------------------------------------------

  /** The clock never goes back, neither within an operation nor between two. */
  predicate Monotone(ops: seq<Op>) {
    && (forall op <- ops :: op.at <= op.later)
    && (forall i, j | 0 <= i < j < |ops| :: ops[i].later <= ops[j].at)
  }

  predicate Stores(op: Op) { op.New? || op.Set? }

  /** Every store has a non-empty id and a session of its own. */
  predicate Fresh(ops: seq<Op>) {
    && (forall op <- ops :: Stores(op) ==> op.id != "")
    && (forall i, j | 0 <= i < j < |ops| && Stores(ops[i]) && Stores(ops[j]) :: ops[i].session != ops[j].session)
  }

  /** Sessions in the table carry the id they are stored under, and none was stored twice. */
  ghost predicate TokensOk(s: State) {
    && (forall id <- s.ss :: id != "" && s.ss[id].session in s.token && s.token[s.ss[id].session] == id)
    && (forall session :: s.stored[session] <= if session in s.token then 1 else 0)
  }

  predicate UsedIn(ops: seq<Op>, session: Id) { exists op <- ops :: Stores(op) && op.session == session }

  ghost predicate UsedOk(s: State, ops: seq<Op>) {
    forall session <- s.token :: UsedIn(ops, session)
  }

  lemma UsedSnoc(ops: seq<Op>, op: Op, session: Id)
    ensures UsedIn(ops + [op], session) <==> UsedIn(ops, session) || (Stores(op) && op.session == session)
  {
    assert forall o :: o in ops + [op] <==> o in ops || o == op;
  }

  lemma NotUsed(ops: seq<Op>, op: Op)
    requires Fresh(ops + [op]) && Stores(op)
    ensures !UsedIn(ops, op.session) && op.id != ""
  {
    var all := ops + [op];
    assert all[|ops|] == op && op in all;
    forall i | 0 <= i < |ops| && Stores(ops[i]) ensures ops[i].session != op.session {
      assert all[i] == ops[i];
    }
  }

  /** An operation that only removes entries or renews them. */
  predicate Shrinks(s: State, n: State) {
    && n.token == s.token && n.stored == s.stored
    && forall id <- n.ss :: id in s.ss && n.ss[id].session == s.ss[id].session
  }

  lemma ShrinkKeeps(s: State, n: State)
    requires TokensOk(s) && Shrinks(s, n)
    ensures TokensOk(n)
  {
  }

  lemma SetStores(s: State, id: string, session: Id, at: int)
    requires TokensOk(s) && id != "" && session !in s.token
    ensures var n := SetAfter(s, id, session, at);
      TokensOk(n) && n.token.Keys == s.token.Keys + {session} && id in n.ss && n.ss[id] == Entry(session, at)
  {
    var n := SetAfter(s, id, session, at);
    forall x ensures n.stored[x] <= if x in n.token then 1 else 0 {
    }
  }

  lemma GetShrinks(expired: int, s: State, id: string, at: int, later: int)
    ensures Shrinks(s, GetAfter(expired, s, id, at, later))
  {
  }

  lemma TokensStep(expired: int, s: State, ops: seq<Op>, op: Op)
    requires Fresh(ops + [op]) && TokensOk(s) && UsedOk(s, ops)
    ensures TokensOk(AfterOp(expired, s, op)) && UsedOk(AfterOp(expired, s, op), ops + [op])
  {
    var n := AfterOp(expired, s, op);
    if Stores(op) { NotUsed(ops, op); }
    forall session { UsedSnoc(ops, op, session); }
    hide InTable, Fresh, UsedIn, TokensOk, GetAfter, SetAfter;
    match op
    case Get(id, at, later) =>
      GetShrinks(expired, s, id, at, later);
      ShrinkKeeps(s, n);
    case New(id, session, at, later) =>
      var g := GetAfter(expired, s, id, at, later);
      GetShrinks(expired, s, id, at, later);
      ShrinkKeeps(s, g);
      if Found(expired, s, id, at).None? { SetStores(g, id, session, later); }
    case Set(id, session, at, _) => SetStores(s, id, session, at);
    case _ => ShrinkKeeps(s, n);
  }

  lemma FreshPrefix(ops: seq<Op>, op: Op)
    requires Fresh(ops + [op])
    ensures Fresh(ops)
  {
    var all := ops + [op];
    assert forall o <- ops :: o in all;
    assert forall i | 0 <= i < |ops| :: all[i] == ops[i];
  }

  lemma {:induction false} TokensAfter(expired: int, ops: seq<Op>)
    requires Fresh(ops)
    ensures TokensOk(After(expired, ops)) && UsedOk(After(expired, ops), ops)
    decreases |ops|
  {
    if ops != [] {
      var front, op := ops[..|ops| - 1], ops[|ops| - 1];
      assert front + [op] == ops;
      FreshPrefix(front, op);
      TokensAfter(expired, front);
      TokensStep(expired, After(expired, front), front, op);
    }
  }

  /** With fresh sessions each is stored once, so it is freed at most once, and never while in the table. */
  lemma FreedOnce(expired: int, ops: seq<Op>, session: Id)
    requires Fresh(ops)
    ensures var s := After(expired, ops); s.freed[session] + InTable(s.ss)[session] == s.stored[session] <= 1
  {
    StoredIsFreedOrInTable(expired, ops);
    TokensAfter(expired, ops);
  }

  function NoSweeps(ops: seq<Op>): seq<Op> {
    if ops == [] then []
    else
      var rest := NoSweeps(ops[..|ops| - 1]);
      if ops[|ops| - 1].Sweep? then rest else rest + [ops[|ops| - 1]]
  }

  /** `a` is `b` without some entries that are dead at `now`. */
  ghost predicate Swept(expired: int, a: State, b: State, now: int) {
    && a.token == b.token && a.stored == b.stored
    && (forall id <- a.ss :: id in b.ss && b.ss[id] == a.ss[id])
    && (forall id <- b.ss :: id in a.ss || Dead(expired, b.ss[id], now))
  }

  lemma SweptLater(expired: int, a: State, b: State, now: int, later: int)
    requires Swept(expired, a, b, now) && now <= later
    ensures Swept(expired, a, b, later)
  {
  }

  lemma SweptSet(expired: int, a: State, b: State, id: string, session: Id, at: int, now: int)
    requires Swept(expired, a, b, now) && TokensOk(b) && id != "" && session !in b.token
    ensures Swept(expired, SetAfter(a, id, session, at), SetAfter(b, id, session, at), now)
  {
  }

  lemma SweptGet(expired: int, a: State, b: State, id: string, at: int, later: int)
    requires Swept(expired, a, b, at) && at <= later
    ensures Swept(expired, GetAfter(expired, a, id, at, later), GetAfter(expired, b, id, at, later), later)
    ensures Found(expired, a, id, at) == Found(expired, b, id, at)
  {
  }

  lemma SweptDel(expired: int, a: State, b: State, id: string, now: int)
    requires Swept(expired, a, b, now)
    ensures Swept(expired, DelAfter(a, id), DelAfter(b, id), now)
  {
  }

  lemma SweptSweep(expired: int, a: State, b: State, at: int)
    requires Swept(expired, a, b, at)
    ensures Swept(expired, SweepAfter(expired, a, at), b, at)
  {
    hide InTable;
  }

  lemma SweptOp(expired: int, a: State, b: State, op: Op)
    requires Swept(expired, a, b, op.at) && op.at <= op.later && TokensOk(b)
    requires Stores(op) ==> op.id != "" && op.session !in b.token
    ensures Answer(expired, a, op) == Answer(expired, b, op)
    ensures Swept(expired, AfterOp(expired, a, op), if op.Sweep? then b else AfterOp(expired, b, op), op.later)
  {
    SweptLater(expired, a, b, op.at, op.later);
    hide GetAfter, SetAfter, DelAfter, SweepAfter, TokensOk, InTable;
    match op
    case Get(id, at, later) => SweptGet(expired, a, b, id, at, later);
    case New(id, session, at, later) =>
      SweptGet(expired, a, b, id, at, later);
      if Found(expired, b, id, at).None? {
        var g := GetAfter(expired, b, id, at, later);
        GetShrinks(expired, b, id, at, later);
        ShrinkKeeps(b, g);
        SweptSet(expired, GetAfter(expired, a, id, at, later), g, id, session, later, later);
      }
    case Set(id, session, at, later) => SweptSet(expired, a, b, id, session, at, later);
    case Del(id, _, later) => SweptDel(expired, a, b, id, later);
    case Sweep(at, later) =>
      SweptSweep(expired, a, b, at);
      SweptLater(expired, SweepAfter(expired, a, at), b, at, later);
    case Clear(_, _) =>
  }

  lemma {:induction false} NoSweepsIn(ops: seq<Op>, op: Op)
    ensures op in NoSweeps(ops) <==> op in ops && !op.Sweep?
    decreases |ops|
  {
    if ops != [] {
      NoSweepsIn(ops[..|ops| - 1], op);
      assert ops == ops[..|ops| - 1] + [ops[|ops| - 1]];
    }
  }

  lemma {:induction false} FreshNoSweeps(ops: seq<Op>)
    requires Fresh(ops)
    ensures Fresh(NoSweeps(ops))
    decreases |ops|
  {
    if ops != [] {
      var front, op := ops[..|ops| - 1], ops[|ops| - 1];
      assert front + [op] == ops;
      FreshPrefix(front, op);
      FreshNoSweeps(front);
      forall o { NoSweepsIn(front, o); }
      if Stores(op) {
        NotUsed(front, op);
        forall o | o in NoSweeps(front) && Stores(o) ensures o.session != op.session {
          assert o in front;
        }
      }
    }
  }

  lemma {:induction false} Simulated(expired: int, ops: seq<Op>, now: int)
    requires Monotone(ops) && Fresh(ops) && forall op <- ops :: op.later <= now
    ensures Swept(expired, After(expired, ops), After(expired, NoSweeps(ops)), now)
    decreases |ops|
  {
    if ops != [] {
      var front, op := ops[..|ops| - 1], ops[|ops| - 1];
      assert front + [op] == ops && op in ops;
      assert forall o <- front :: o in ops;
      FreshPrefix(front, op);
      forall o | o in front ensures o.later <= op.at {
        var i :| 0 <= i < |front| && front[i] == o;
        assert ops[i] == o;
      }
      assert Monotone(front) by { MonotonePrefix(front, op); }
      hide Monotone;
      Simulated(expired, front, op.at);
      SimulatedStep(expired, front, op);
      SweptLater(expired, After(expired, ops), After(expired, NoSweeps(ops)), op.later, now);
    }
  }

  lemma MonotonePrefix(ops: seq<Op>, op: Op)
    requires Monotone(ops + [op])
    ensures Monotone(ops)
  {
    var all := ops + [op];
    assert forall o <- ops :: o in all;
    assert forall i | 0 <= i < |ops| :: all[i] == ops[i];
  }

  lemma NextStep(expired: int, ops: seq<Op>, op: Op)
    ensures After(expired, ops + [op]) == AfterOp(expired, After(expired, ops), op)
    ensures NoSweeps(ops + [op]) == if op.Sweep? then NoSweeps(ops) else NoSweeps(ops) + [op]
  {
    assert (ops + [op])[..|ops|] == ops;
  }

  lemma SimulatedStep(expired: int, ops: seq<Op>, op: Op)
    requires Fresh(ops + [op]) && op.at <= op.later
    requires Swept(expired, After(expired, ops), After(expired, NoSweeps(ops)), op.at)
    ensures Answer(expired, After(expired, ops), op) == Answer(expired, After(expired, NoSweeps(ops)), op)
    ensures Swept(expired, After(expired, ops + [op]), After(expired, NoSweeps(ops + [op])), op.later)
  {
    var b := After(expired, NoSweeps(ops));
    FreshPrefix(ops, op);
    FreshNoSweeps(ops);
    TokensAfter(expired, NoSweeps(ops));
    if Stores(op) {
      NotUsed(ops, op);
      forall o { NoSweepsIn(ops, o); }
      assert !UsedIn(NoSweeps(ops), op.session);
    }
    hide AfterOp, Swept, TokensOk, Fresh;
    NextStep(expired, ops, op);
    NextStep(expired, NoSweeps(ops), op);
    SweptOp(expired, After(expired, ops), b, op);
  }

  /** Whatever sweeps a run contains, every answer is what it is in the same run without sweeps. */
  lemma SweepsInvisible(expired: int, ops: seq<Op>, op: Op)
    requires Monotone(ops + [op]) && Fresh(ops + [op])
    ensures Answer(expired, After(expired, ops), op) == Answer(expired, After(expired, NoSweeps(ops)), op)
  {
    var all := ops + [op];
    assert all[|ops|] == op && op in all;
    forall o | o in ops ensures o.later <= op.at {
      var i :| 0 <= i < |ops| && ops[i] == o;
      assert all[i] == o;
    }
    MonotonePrefix(ops, op);
    FreshPrefix(ops, op);
    Simulated(expired, ops, op.at);
    SimulatedStep(expired, ops, op);
  }

  lemma LeftOut(before: seq<Op>, x: Op, after: seq<Op>, op: Op)
    requires Monotone(before + [x] + after + [op]) && Fresh(before + [x] + after + [op])
    ensures Monotone(before + after + [op]) && Fresh(before + after + [op])
  {
    var long, short := before + [x] + after + [op], before + after + [op];
    forall i | 0 <= i < |short| ensures short[i] == long[if i < |before| then i else i + 1] && short[i] in long {
      assert long[if i < |before| then i else i + 1] in long;
    }
  }

  /** In particular a sweep can be inserted anywhere. */
  lemma SweepInserted(expired: int, before: seq<Op>, at: int, after: seq<Op>, op: Op)
    requires Monotone(before + [Sweep(at, at)] + after + [op]) && Fresh(before + [Sweep(at, at)] + after + [op])
    ensures Answer(expired, After(expired, before + [Sweep(at, at)] + after), op)
         == Answer(expired, After(expired, before + after), op)
  {
    LeftOut(before, Sweep(at, at), after, op);
    SweepsInvisible(expired, before + [Sweep(at, at)] + after, op);
    SweepsInvisible(expired, before + after, op);
    SameWithoutSweeps(expired, before, at, after);
  }

  lemma {:induction false} SameWithoutSweeps(expired: int, before: seq<Op>, at: int, after: seq<Op>)
    ensures NoSweeps(before + [Sweep(at, at)] + after) == NoSweeps(before + after)
    decreases |after|
  {
    if after == [] {
      NextStep(expired, before, Sweep(at, at));
      assert before + [Sweep(at, at)] + after == before + [Sweep(at, at)] && before + after == before;
    } else {
      var front, op := after[..|after| - 1], after[|after| - 1];
      SameWithoutSweeps(expired, before, at, front);
      assert before + [Sweep(at, at)] + after == before + [Sweep(at, at)] + front + [op];
      assert before + after == before + front + [op];
      NextStep(expired, before + [Sweep(at, at)] + front, op);
      NextStep(expired, before + front, op);
    }
  }

  lemma SweptAt(expired: int, s: State, at: int, id: string)
    ensures var n := SweepAfter(expired, s, at);
      && n.token == s.token
      && (id in n.ss <==> id in s.ss && !Dead(expired, s.ss[id], at)) && (id in n.ss ==> n.ss[id] == s.ss[id])
  {
    hide InTable;
  }

  /** A store of `session` under `id` leaves the entry there that is already under the same token. */
  predicate Blocked(s: State, id: string, session: Id) {
    id in s.ss && Token(s, s.ss[id].session) == Token(s, session)
  }

  /** The dead entries after a store that leaves a live entry. */
  lemma DeadWithout(expired: int, ss: map<string, Entry>, id: string, e: Entry, at: int)
    requires !Dead(expired, e, at)
    ensures DeadPart(expired, ss[id := e], at) == DeadPart(expired, ss, at) - {id}
    ensures ss[id := e] - (DeadPart(expired, ss, at) - {id}).Keys == (ss - DeadPart(expired, ss, at).Keys)[id := e]
  {
  }

  lemma FreedInOrder(f: multiset<Id>, a: multiset<Id>, b: multiset<Id>)
    ensures f + (a + b) == f + a + b && f + a + b == f + b + a && f + multiset{} == f
  {
  }

  /** The sweep frees the session that the store would have replaced, or leaves it to the store. */
  lemma StoreSweptFreed(expired: int, s: State, id: string, at: int)
    ensures var dead := DeadPart(expired, s.ss, at);
      var one := if id in s.ss then multiset{s.ss[id].session} else multiset{};
      s.freed + InTable(dead) + (if id in dead then multiset{} else one) == s.freed + one + InTable(dead - {id})
  {
    var dead := DeadPart(expired, s.ss, at);
    var one := if id in s.ss then multiset{s.ss[id].session} else multiset{};
    hide InTable;
    if id in dead {
      InTableWithout(dead, id);
      FreedInOrder(s.freed, one, InTable(dead - {id}));
      FreedInOrder(s.freed + InTable(dead), one, one);
    } else {
      assert dead - {id} == dead;
      FreedInOrder(s.freed, one, InTable(dead));
    }
  }

  lemma StoreSwept(expired: int, s: State, id: string, session: Id, at: int, later: int)
    requires !Blocked(s, id, session) && !Dead(expired, Entry(session, later), at)
    ensures SetAfter(SweepAfter(expired, s, at), id, session, later)
         == SweepAfter(expired, SetAfter(s, id, session, later), at)
  {
    var n := SweepAfter(expired, s, at);
    DeadWithout(expired, s.ss, id, Entry(session, later), at);
    SweptAt(expired, s, at, id);
    StoreSweptFreed(expired, s, id, at);
    assert id in DeadPart(expired, s.ss, at) <==> id in s.ss && id !in n.ss;
    var one := if id in n.ss then multiset{n.ss[id].session} else multiset{};
    assert SetAfter(n, id, session, later)
        == State(n.ss[id := Entry(session, later)], n.token[session := id], n.freed + one,
                 n.stored + multiset{session});
    hide InTable, DeadPart, Dead, Blocked;
  }

  /** When a store and a sweep can change places: unless the entry that is then under `id` is dead to the sweep. */
  lemma SweepCommutes(expired: int, s: State, id: string, session: Id, at: int, later: int)
    ensures SetAfter(SweepAfter(expired, s, at), id, session, later)
         == SweepAfter(expired, SetAfter(s, id, session, later), at)
       <==> !Dead(expired, if Blocked(s, id, session) then s.ss[id] else Entry(session, later), at)
  {
    SweptAt(expired, s, at, id);
    SweptAt(expired, SetAfter(s, id, session, later), at, id);
    hide SweepAfter, DeadPart, InTable;
    if Dead(expired, if Blocked(s, id, session) then s.ss[id] else Entry(session, later), at) {
      assert id in SetAfter(SweepAfter(expired, s, at), id, session, later).ss;
    } else if !Blocked(s, id, session) {
      StoreSwept(expired, s, id, session, at, later);
    }
  }

  lemma StoredUnlessBlocked(s: State, id: string, session: Id, at: int)
    ensures SetAfter(s, id, session, at).stored
         == if Blocked(s, id, session) then s.stored else s.stored + multiset{session}
    ensures s.stored + multiset{session} != s.stored
  {
    assert (s.stored + multiset{session})[session] == s.stored[session] + 1;
  }

  lemma SweepFinds(expired: int, s: State, id: string, session: Id, at: int, later: int)
    requires at <= later
    ensures
      var swept := SetAfter(SweepAfter(expired, s, at), id, session, later);
      var plain := SetAfter(s, id, session, later);
      var own := Blocked(s, id, session) && Dead(expired, s.ss[id], at);
      && (Found(expired, swept, id, later) != Found(expired, plain, id, later) <==> 0 < expired && own)
      && (own ==> plain == s && swept.ss[id] == Entry(session, later))
  {
    SweptAt(expired, s, at, id);
    hide SweepAfter, DeadPart, InTable;
  }

  /** Why sessions must be fresh: storing a session again over its own expired entry stores nothing,
      unless a sweep came first. In no other case does a sweep decide whether something is stored; for
      a positive expiry it is also the only case in which it changes what is found afterwards. */
  lemma SweepShows(expired: int, s: State, id: string, session: Id, at: int, later: int)
    requires at <= later
    ensures
      var swept := SetAfter(SweepAfter(expired, s, at), id, session, later);
      var plain := SetAfter(s, id, session, later);
      var own := Blocked(s, id, session) && Dead(expired, s.ss[id], at);
      && (swept.stored != plain.stored <==> own)
      && (Found(expired, swept, id, later) != Found(expired, plain, id, later) <==> 0 < expired && own)
      && (own ==> plain == s && swept.ss[id] == Entry(session, later))
  {
    SweptAt(expired, s, at, id);
    StoredUnlessBlocked(s, id, session, later);
    StoredUnlessBlocked(SweepAfter(expired, s, at), id, session, later);
    SweepFinds(expired, s, id, session, at, later);
    assert SweepAfter(expired, s, at).stored == s.stored;
    hide SweepAfter, SetAfter, Found, DeadPart, InTable;
  }

  /** With an expiry of 1, a session stored at 0 and stored again at 5 is not found, but it is after a sweep. */
  lemma SweepShown()
    ensures var run, again := [Set("a", 1, 0, 0)], [Set("a", 1, 5, 5)];
      && Found(1, After(1, run + again), "a", 5) == None
      && Found(1, After(1, run + [Sweep(5, 5)] + again), "a", 5) == Some(1)
  {
    var first := Set("a", 1, 0, 0);
    var s := After(1, [first]);
    NextStep(1, [], first);
    assert [] + [first] == [first];
    assert s == State(map["a" := Entry(1, 0)], map[1 := "a"], multiset{}, multiset{1});
    NextStep(1, [first], Set("a", 1, 5, 5));
    NextStep(1, [first], Sweep(5, 5));
    NextStep(1, [first] + [Sweep(5, 5)], Set("a", 1, 5, 5));
    SweepShows(1, s, "a", 1, 5, 5);
    hide SweepAfter, InTable;
  }

  // ---------------------------------------------------------------------
  // A loop over the table, in any order
  // ---------------------------------------------------------------------

  function Restrict(ss: map<string, Entry>, ids: set<string>): map<string, Entry> {
    map id | id in ss && id in ids :: ss[id]
  }

  lemma RestrictSnoc(ss: map<string, Entry>, ids: set<string>, id: string)
    requires id in ss && id !in ids
    ensures InTable(Restrict(ss, ids + {id})) == InTable(Restrict(ss, ids)) + multiset{ss[id].session}
  {
    hide InTable;
    assert Restrict(ss, ids + {id}) == Restrict(ss, ids)[id := ss[id]];
    InTableSet(Restrict(ss, ids), id, ss[id]);
    assert Restrict(ss, ids) - {id} == Restrict(ss, ids);
  }

  /** The sessions of `done` have been freed. */
  ghost predicate AllFreed(ss: map<string, Entry>, done: set<string>, was: multiset<Id>, freed: multiset<Id>) {
    freed == was + InTable(Restrict(ss, done))
  }

  lemma NoneFreed(ss: map<string, Entry>, freed: multiset<Id>)
    ensures AllFreed(ss, {}, freed, freed)
  {
    assert Restrict(ss, {}) == map[];
  }

  lemma NextFreed(ss: map<string, Entry>, done: set<string>, was: multiset<Id>, freed: multiset<Id>, id: string)
    requires AllFreed(ss, done, was, freed) && id in ss && id !in done
    ensures AllFreed(ss, done + {id}, was, freed + multiset{ss[id].session})
  {
    RestrictSnoc(ss, done, id);
  }

  /** `ids` are the dead entries outside `todo`, and their sessions have been freed. */
  ghost predicate Visited(expired: int, ss: map<string, Entry>, todo: set<string>, ids: set<string>, now: int,
                          was: multiset<Id>, freed: multiset<Id>) {
    && (forall id :: id in ids <==> id in ss && id !in todo && Dead(expired, ss[id], now))
    && freed == was + InTable(Restrict(ss, ids))
  }

  lemma NoneDead(expired: int, ss: map<string, Entry>, now: int, freed: multiset<Id>)
    requires expired == 0
    ensures Visited(expired, ss, {}, {}, now, freed, freed)
  {
    assert Restrict(ss, {}) == map[];
  }

  lemma VisitNone(expired: int, ss: map<string, Entry>, now: int, freed: multiset<Id>)
    ensures Visited(expired, ss, ss.Keys, {}, now, freed, freed)
  {
    assert Restrict(ss, {}) == map[];
  }

  lemma VisitNext(expired: int, ss: map<string, Entry>, todo: set<string>, ids: set<string>, now: int,
                  was: multiset<Id>, freed: multiset<Id>, id: string)
    requires Visited(expired, ss, todo, ids, now, was, freed) && id in todo && id in ss
    ensures id !in ids
    ensures if Dead(expired, ss[id], now)
            then Visited(expired, ss, todo - {id}, ids + {id}, now, was, freed + multiset{ss[id].session})
            else Visited(expired, ss, todo - {id}, ids, now, was, freed)
  {
    RestrictSnoc(ss, ids, id);
  }

  lemma SweptParts(expired: int, ss: map<string, Entry>, ids: set<string>, now: int,
                   was: multiset<Id>, freed: multiset<Id>)
    requires Visited(expired, ss, {}, ids, now, was, freed)
    ensures freed == was + InTable(DeadPart(expired, ss, now)) && ids == DeadPart(expired, ss, now).Keys
  {
    assert Restrict(ss, ids) == DeadPart(expired, ss, now);
  }

  // ---------------------------------------------------------------------
  // The source's form
  // ---------------------------------------------------------------------

  class ManageSession {
    const s: Id
    var recent: int
    var unavailable: bool
    /** The id it is stored under. */
    ghost const key: string

    constructor (s: Id, recent: int, ghost key: string)
      ensures this.s == s && this.recent == recent && !unavailable && this.key == key
    {
      this.s, this.recent, unavailable, this.key := s, recent, false, key;
    }
  }

  class SessionTable {
    const expired: int
    var ss: map<string, ManageSession>
    /** Every entry that is or was in the table. */
    ghost var entries: set<ManageSession>
    /** The id field of every session object. */
    var token: map<Id, string>
    /** The calls of Free, which the source starts in threads of their own. */
    var freed: multiset<Id>
    ghost var stored: multiset<Id>

    /** No entry of the table is marked unavailable between operations. */
    ghost predicate Valid()
      reads this, entries
    {
      forall id <- ss :: ss[id] in entries && !ss[id].unavailable && ss[id].key == id
    }

    ghost function Entries(): map<string, Entry>
      reads this, entries
      requires forall id <- ss :: ss[id] in entries
    {
      map id | id in ss :: Entry(ss[id].s, ss[id].recent)
    }

    ghost function View(): State
      reads this, entries
      requires forall id <- ss :: ss[id] in entries
    {
      State(Entries(), token, freed, stored)
    }

    function TokenOf(session: Id): string
      reads this
    {
      if session in token then token[session] else ""
    }

    constructor (expired: int)
      ensures this.expired == expired && Valid() && View() == START
    {
      this.expired, ss, entries, token, freed, stored := expired, map[], {}, map[], multiset{}, multiset{};
    }

    /** Marks and frees an entry that is dead at `now`; one that is marked already is left alone. */
    method TriggerDeadSession(ms: ManageSession, now: int) returns (ok: bool)
      modifies ms`unavailable, this`freed
      ensures ok == ms.unavailable == (old(ms.unavailable) || Dead(expired, Entry(ms.s, ms.recent), now))
      ensures freed == if ok && !old(ms.unavailable) then old(freed) + multiset{ms.s} else old(freed)
    {
      if ms.unavailable {
        return true;
      }
      if expired != 0 {
        var recentTime := ms.recent + expired;
        if now > recentTime {
          ms.unavailable := true;
          freed := freed + multiset{ms.s};
          return true;
        }
      }
      return false;
    }

    method GetSession(id: string, at: int, later: int) returns (r: Option<Id>)
      requires Valid()
      modifies this, entries
      ensures Valid() && fresh(entries - old(entries))
      ensures View() == GetAfter(expired, old(View()), id, at, later)
      ensures r == Found(expired, old(View()), id, at)
    {
      if id !in ss {
        return None;
      }
      var ms := ss[id];
      if ms.unavailable {
        assert false;
      }
      var dead := TriggerDeadSession(ms, at);
      if dead {
        ss := ss - {id};
        assert Entries() == old(Entries()) - {id};
        return None;
      }
      ms.recent := later;
      assert Entries() == old(Entries())[id := Entry(ms.s, later)];
      return Some(ms.s);
    }

    /** Stores a session under `id`, whose entry, if there is one, may be marked already. */
    method Store(id: string, s: Id, at: int)
      requires forall k <- ss :: ss[k] in entries && ss[k].key == k && (k != id ==> !ss[k].unavailable)
      modifies this`ss, this`entries, this`token, this`stored
      ensures Valid() && fresh(entries - old(entries))
      ensures Entries() == old(Entries())[id := Entry(s, at)]
      ensures token == old(token)[s := id] && stored == old(stored) + multiset{s}
    {
      token := token[s := id];
      var ms := new ManageSession(s, at, id);
      ss, entries := ss[id := ms], entries + {ms};
      stored := stored + multiset{s};
    }

    method SetSession(id: string, s: Id, at: int) returns (r: Id)
      requires Valid()
      modifies this, entries
      ensures Valid() && fresh(entries - old(entries))
      ensures View() == SetAfter(old(View()), id, s, at)
      ensures r == s
    {
      if id in ss {
        var ms := ss[id];
        if !ms.unavailable {
          if TokenOf(ms.s) == TokenOf(s) {
            return s;
          }
          ms.unavailable := true;
          freed := freed + multiset{ms.s};
        }
      }
      assert Entries() == old(Entries());
      Store(id, s, at);
      return s;
    }

    method NewSession(id: string, s: Id, at: int, later: int) returns (r: Id)
      requires Valid()
      modifies this, entries
      ensures Valid() && fresh(entries - old(entries))
      ensures View() == AfterOp(expired, old(View()), New(id, s, at, later))
      ensures Some(r) == Answer(expired, old(View()), New(id, s, at, later))
    {
      var found := GetSession(id, at, later);
      if found.Some? {
        return found.value;
      }
      r := SetSession(id, s, later);
    }

    method DelSession(id: string)
      requires Valid()
      modifies this
      ensures Valid() && entries == old(entries)
      ensures View() == DelAfter(old(View()), id)
    {
      if id in ss {
        var ms := ss[id];
        ss := ss - {id};
        freed := freed + multiset{ms.s};
      }
    }

    /** Visits the table in any order and marks what is dead. The order of the ids is left open. */
    method MarkDead(now: int, ghost all: map<string, Entry>) returns (expID: set<string>)
      requires all.Keys == ss.Keys
      requires forall id <- ss ::
                 ss[id] in entries && !ss[id].unavailable && ss[id].key == id
                 && all[id] == Entry(ss[id].s, ss[id].recent)
      modifies this`freed, entries`unavailable
      ensures forall id <- ss :: ss[id].unavailable <==> id in expID
      ensures Visited(expired, all, {}, expID, now, old(freed), freed)
    {
      expID := {};
      var todo := ss.Keys;
      VisitNone(expired, all, now, freed);
      hide *;
      while todo != {}
        invariant todo <= ss.Keys
        invariant forall id <- ss :: ss[id].unavailable <==> id in expID
        invariant Visited(expired, all, todo, expID, now, old(freed), freed)
        decreases todo
      {
        var id :| id in todo;
        VisitNext(expired, all, todo, expID, now, old(freed), freed, id);
        todo := todo - {id};
        var dead := TriggerDeadSession(ss[id], now);
        if dead {
          expID := expID + {id};
        }
      }
    }

    /** Takes the marked entries out of the table. */
    method Dels(ids: set<string>)
      requires forall id <- ss :: ss[id] in entries && ss[id].key == id && (ss[id].unavailable <==> id in ids)
      modifies this`ss
      ensures Valid() && Entries() == old(Entries()) - ids
    {
      ss := ss - ids;
    }

    /** Marks and frees the dead entries, and takes them out of the table. */
    method SweepTable(now: int) returns (expID: set<string>)
      requires Valid()
      modifies this`ss, this`freed, entries`unavailable
      ensures Valid() && Entries() == old(Entries()) - expID
      ensures Visited(expired, old(Entries()), {}, expID, now, old(freed), freed)
    {
      ghost var all := Entries();
      hide Visited;
      expID := MarkDead(now, all);
      assert Entries() == all;
      Dels(expID);
    }

    method CheckDeadAll(now: int) returns (expID: set<string>)
      requires Valid()
      modifies this`ss, this`freed, entries`unavailable
      ensures Valid() && entries == old(entries)
      ensures View() == SweepAfter(expired, old(View()), now)
      ensures expID == DeadPart(expired, old(Entries()), now).Keys
    {
      ghost var all := Entries();
      hide InTable, Visited, DeadPart, Dead, SessionTable.Entries, SessionTable.Valid;
      if expired == 0 {
        NoneDead(expired, all, now, freed);
        SweptParts(expired, all, {}, now, freed, freed);
        assert all - {} == all;
        return {};
      }
      expID := SweepTable(now);
      SweptParts(expired, all, expID, now, old(freed), freed);
    }

    /** Visits the table in any order, marks every entry and frees its session. */
    method MarkAll(ghost all: map<string, Entry>)
      requires all.Keys == ss.Keys
      requires forall id <- ss ::
                 ss[id] in entries && !ss[id].unavailable && ss[id].key == id && all[id].session == ss[id].s
      modifies this`freed, entries`unavailable
      ensures AllFreed(all, ss.Keys, old(freed), freed)
    {
      var todo := ss.Keys;
      ghost var done: set<string> := {};
      NoneFreed(all, freed);
      hide *;
      while todo != {}
        invariant todo <= ss.Keys && done == ss.Keys - todo
        invariant forall id <- todo :: !ss[id].unavailable
        invariant AllFreed(all, done, old(freed), freed)
        decreases todo
      {
        var id :| id in todo;
        NextFreed(all, done, old(freed), freed, id);
        todo, done := todo - {id}, done + {id};
        var ms := ss[id];
        if !ms.unavailable {
          ms.unavailable := true;
          freed := freed + multiset{ms.s};
        }
      }
      assert done == all.Keys;
    }

    method InstantDeadAll()
      requires Valid()
      modifies this`ss, this`freed, entries`unavailable
      ensures Valid() && View() == ClearAfter(old(View()))
    {
      ghost var all := Entries();
      MarkAll(all);
      assert Restrict(all, all.Keys) == all;
      ss := map[];
    }
  }
}
