/**
  All-or-nothing assignment to a struct: `setStruct` with its two undo logs.

  Memory is a map of cells.  A struct object owns one cell for each scalar or
  pointer reached through its by-value fields; a field of struct type covers the
  cells below it, so assignments to a field and to a field of that field overlap.
 */
module SetStruct {
  import opened Wrappers

  type Obj = nat
  type Path = seq<nat>

  datatype Val = Ptr(to: Option<Obj>) | Data(d: int)

  /** A converted value, by its contents at each path below the field. */
  datatype Value = Value(ptr: Path -> Option<Obj>, data: Path -> int)

  const NIL := Ptr(None)
  datatype Cell = Cell(obj: Obj, path: Path)

  datatype Type = Scalar | Pointer(elem: string) | Struct(fields: seq<Field>)
  datatype Field = Field(anonymous: bool, exported: bool, ty: Type)

  datatype Heap = Heap(cells: map<Cell, Val>, next: Obj)

  datatype Key = Name(name: string) | Index(i: int) | BadKey

  datatype Error = FieldNotFound | KeyType | IndexOutOfRange | Unaddressable | Unsupported | NotConvertible

  /** A reflect.Value inside the struct: where it is, of which type, and whether
      it was reached through an embedded or an exported field. */
  datatype Loc = Loc(obj: Obj, path: Path, ty: Type, embedded: bool, exported: bool)

  /** What does not change during a call: struct types by name, the field index,
      the conversion,
      and whether unexported fields may be written. */
  datatype Env<!A> = Env(
    types: map<string, seq<Field>>,
    root: Loc,
    index: map<string, Path>,
    capitalize: string -> string,
    convert: (Type, A) -> Option<Value>,
    allow: bool)

  /** One step of a call, as its undo logs record it. */
  datatype Event = Wrote(prev: map<Cell, Val>) | Allocated(slot: Cell)

  // ---------------------------------------------------------------------
  // Writing
  // ---------------------------------------------------------------------

  predicate Covers(loc: Loc, c: Cell) { c.obj == loc.obj && loc.path <= c.path }

  /** The old value of a field. */
  function Below(cells: map<Cell, Val>, loc: Loc): map<Cell, Val> {
    map c | c in cells && Covers(loc, c) :: cells[c]
  }

  /** `field.Set(v)`: a value of the field's own type, so pointer cells stay pointer cells. */
  function Assign(cells: map<Cell, Val>, loc: Loc, v: Value): map<Cell, Val> {
    map c | c in cells ::
      if !Covers(loc, c) then cells[c]
      else if cells[c].Ptr? then Ptr(v.ptr(c.path[|loc.path|..]))
      else Data(v.data(c.path[|loc.path|..]))
  }

  /** The cells of a zero value of type `ty` at `path` of object `o`. */
  function ZeroAt(o: Obj, path: Path, ty: Type): map<Cell, Val>
    decreases ty
  {
    match ty
    case Scalar => map[Cell(o, path) := Data(0)]
    case Pointer(_) => map[Cell(o, path) := NIL]
    case Struct(fields) => ZeroFields(o, path, ty, |fields|)
  }

  function ZeroFields(o: Obj, path: Path, ty: Type, n: nat): map<Cell, Val>
    requires ty.Struct? && n <= |ty.fields|
    decreases ty, n
  {
    if n == 0 then map[]
    else ZeroFields(o, path, ty, n - 1) + ZeroAt(o, path + [n - 1], ty.fields[n - 1].ty)
  }

  function FieldsOf(types: map<string, seq<Field>>, name: string): seq<Field> {
    if name in types then types[name] else []
  }

  /** `curr.Set(reflect.New(elem))` */
  function Allocate(h: Heap, slot: Cell, fields: seq<Field>): Heap {
    Heap(ZeroAt(h.next, [], Struct(fields)) + h.cells[slot := Ptr(Some(h.next))], h.next + 1)
  }

  // ---------------------------------------------------------------------
  // safeFieldByIndex
  // ---------------------------------------------------------------------

  datatype Walked = Walked(h: Heap, allocs: seq<Cell>, loc: Result<Loc, Error>)

  /** The pointer that a path passes through, allocated when it is nil and embedded. */
  function Deref<A>(env: Env<A>, h: Heap, curr: Loc): Walked {
    var slot := Cell(curr.obj, curr.path);
    if !curr.ty.Pointer? then Walked(h, [], Ok(curr))
    else if slot !in h.cells || h.cells[slot].Data? then Walked(h, [], Err(Unsupported))
    else
      var target := (o: Obj) => Loc(o, [], Struct(FieldsOf(env.types, curr.ty.elem)), curr.embedded, curr.exported);
      if h.cells[slot].to.Some? then Walked(h, [], Ok(target(h.cells[slot].to.value)))
      else if !curr.embedded || !(curr.exported || env.allow) then Walked(h, [], Err(Unaddressable))
      else Walked(Allocate(h, slot, FieldsOf(env.types, curr.ty.elem)), [slot], Ok(target(h.next)))
  }

  function Select(curr: Loc, i: nat): Result<Loc, Error> {
    if !curr.ty.Struct? then Err(Unsupported)
    else if i >= |curr.ty.fields| then Err(IndexOutOfRange)
    else
      var f := curr.ty.fields[i];
      Ok(Loc(curr.obj, curr.path + [i], f.ty, f.anonymous, f.exported))
  }

  /** The field reached along `index`, with the slots allocated on the way. */
  function Walk<A>(env: Env<A>, h: Heap, index: Path): Walked {
    if index == [] then Walked(h, [], Ok(env.root))
    else
      var n := |index| - 1;
      var w := Walk(env, h, index[..n]);
      if w.loc.Err? then w
      else
        var d := Deref(env, w.h, w.loc.value);
        Walked(d.h, w.allocs + d.allocs, if d.loc.Err? then d.loc else Select(d.loc.value, index[n]))
  }

  // ---------------------------------------------------------------------
  // setStruct
  // ---------------------------------------------------------------------

  function FieldPath<A>(env: Env<A>, key: Key): Result<Path, Error> {
    match key
    case Name(k) =>
      if k in env.index then Ok(env.index[k])
      else if env.capitalize(k) in env.index then Ok(env.index[env.capitalize(k)])
      else Err(FieldNotFound)
    case Index(i) =>
      var n := if env.root.ty.Struct? then |env.root.ty.fields| else 0;
      var j := if i < 0 then i + n else i;
      if 0 <= j < n then Ok([j]) else Err(IndexOutOfRange)
    case BadKey => Err(KeyType)
  }

  datatype Progress = Progress(h: Heap, log: seq<Event>, error: Option<Error>)

  function AllocLog(slots: seq<Cell>): seq<Event> {
    seq(|slots|, i requires 0 <= i < |slots| => Allocated(slots[i]))
  }

  /** One key/value pair, after the pairs logged so far. */
  function SetPair<A>(env: Env<A>, h: Heap, log: seq<Event>, key: Key, arg: A): Progress {
    var path := FieldPath(env, key);
    if path.Err? then Progress(h, log, Some(path.error))
    else
      var w := Walk(env, h, path.value);
      var log' := log + AllocLog(w.allocs);
      if w.loc.Err? then Progress(w.h, log', Some(w.loc.error))
      else
        var field := w.loc.value;
        if !(field.exported || env.allow) then Progress(w.h, log', Some(Unaddressable))
        else
          var v := env.convert(field.ty, arg);
          if v.None? then Progress(w.h, log', Some(NotConvertible))
          else
            Progress(w.h.(cells := Assign(w.h.cells, field, v.value)), log' + [Wrote(Below(w.h.cells, field))], None)
  }

  /** All pairs in order, up to the first error. */
  function SetPairs<A>(env: Env<A>, h: Heap, args: seq<(Key, A)>): Progress {
    if args == [] then Progress(h, [], None)
    else
      var n := |args| - 1;
      var p := SetPairs(env, h, args[..n]);
      if p.error.Some? then p else SetPair(env, p.h, p.log, args[n].0, args[n].1)
  }

  // ---------------------------------------------------------------------
  // Rollback
  // ---------------------------------------------------------------------

  /** The `undos` log: old values of leaf fields. */
  function LeafLog(log: seq<Event>): seq<map<Cell, Val>> {
    if log == [] then []
    else
      var e := log[|log| - 1];
      LeafLog(log[..|log| - 1]) + if e.Wrote? then [e.prev] else []
  }

  /** The `allocUndos` log: slots allocated on the way. */
  function SlotLog(log: seq<Event>): seq<Cell> {
    if log == [] then []
    else
      var e := log[|log| - 1];
      SlotLog(log[..|log| - 1]) + if e.Allocated? then [e.slot] else []
  }

  function UndoLeaves(cells: map<Cell, Val>, undos: seq<map<Cell, Val>>): map<Cell, Val>
    decreases |undos|
  {
    if undos == [] then cells
    else UndoLeaves(cells + undos[|undos| - 1], undos[..|undos| - 1])
  }

  function UndoSlots(cells: map<Cell, Val>, slots: seq<Cell>): map<Cell, Val>
    decreases |slots|
  {
    if slots == [] then cells
    else UndoSlots(cells[slots[|slots| - 1] := NIL], slots[..|slots| - 1])
  }

  /** The rollback of the code: all leaves first, then all allocations. */
  function Rollback(cells: map<Cell, Val>, log: seq<Event>): map<Cell, Val> {
    UndoSlots(UndoLeaves(cells, LeafLog(log)), SlotLog(log))
  }

  /** A rollback with one chronological log. */
  function RollbackInOrder(cells: map<Cell, Val>, log: seq<Event>): map<Cell, Val>
    decreases |log|
  {
    if log == [] then cells
    else
      var e := log[|log| - 1];
      RollbackInOrder(if e.Wrote? then cells + e.prev else cells[e.slot := NIL], log[..|log| - 1])
  }

  /** The cells after the whole call, and its error. */
  function SetStructResult<A>(env: Env<A>, h: Heap, args: seq<(Key, A)>): (map<Cell, Val>, Option<Error>) {
    var p := SetPairs(env, h, args);
    (if p.error.Some? then Rollback(p.h.cells, p.log) else p.h.cells, p.error)
  }

  // ---------------------------------------------------------------------
  // What a log says about the run that wrote it
  // ---------------------------------------------------------------------

  ghost predicate Fresh(h: Heap) { forall c <- h.cells :: c.obj < h.next }

  /** Event `e` leads from `a` to `b`. */
  ghost predicate Does(a: map<Cell, Val>, e: Event, b: map<Cell, Val>) {
    && a.Keys <= b.Keys
    && match e
       case Wrote(prev) =>
         && prev.Keys <= a.Keys
         && forall c <- a :: b[c].Ptr? == a[c].Ptr? && if c in prev then prev[c] == a[c] else b[c] == a[c]
       case Allocated(slot) =>
         slot in a && a[slot] == NIL && b[slot].Ptr? && forall c <- a :: c != slot ==> b[c] == a[c]
  }

  /** `log` records a run from `a` to `b`. */
  ghost predicate Runs(a: map<Cell, Val>, log: seq<Event>, b: map<Cell, Val>)
    decreases |log|, 0
  {
    if log == [] then a == b else RunsThen(a, log[..|log| - 1], log[|log| - 1], b)
  }

  ghost predicate RunsThen(a: map<Cell, Val>, log: seq<Event>, e: Event, b: map<Cell, Val>)
    decreases |log|, 1
  {
    exists mid :: Runs(a, log, mid) && Does(mid, e, b)
  }

  lemma RunsOne(a: map<Cell, Val>, log: seq<Event>, mid: map<Cell, Val>, e: Event, b: map<Cell, Val>)
    requires Runs(a, log, mid) && Does(mid, e, b)
    ensures Runs(a, log + [e], b)
  {
    assert (log + [e])[..|log|] == log;
  }

  lemma {:induction false} RunsKeeps(a: map<Cell, Val>, log: seq<Event>, b: map<Cell, Val>)
    requires Runs(a, log, b)
    ensures a.Keys <= b.Keys
    decreases |log|
  {
    if log != [] {
      var front, e := log[..|log| - 1], log[|log| - 1];
      var mid :| Runs(a, front, mid) && Does(mid, e, b);
      RunsKeeps(a, front, mid);
    }
  }

  // ---------------------------------------------------------------------
  // The two rollbacks, cell by cell
  // ---------------------------------------------------------------------

  lemma {:induction false} UndoLeavesAt(g: map<Cell, Val>, h: map<Cell, Val>, undos: seq<map<Cell, Val>>, c: Cell)
    requires c in g && c in h && g[c] == h[c]
    ensures c in UndoLeaves(g, undos) && c in UndoLeaves(h, undos) && UndoLeaves(g, undos)[c] == UndoLeaves(h, undos)[c]
    decreases |undos|
  {
    if undos != [] {
      var u := undos[|undos| - 1];
      UndoLeavesAt(g + u, h + u, undos[..|undos| - 1], c);
    }
  }

  lemma {:induction false} UndoSlotsAt(cells: map<Cell, Val>, slots: seq<Cell>, c: Cell)
    requires c in cells
    ensures c in UndoSlots(cells, slots)
    ensures UndoSlots(cells, slots)[c] == if c in slots then NIL else cells[c]
    decreases |slots|
  {
    if slots != [] {
      var n := |slots| - 1;
      assert slots == slots[..n] + [slots[n]];
      UndoSlotsAt(cells[slots[n] := NIL], slots[..n], c);
    }
  }

  /** Undoing the leaves alone restores every old cell that was not allocated into. */
  lemma {:induction false} LeavesRestored(a: map<Cell, Val>, log: seq<Event>, b: map<Cell, Val>, c: Cell)
    requires Runs(a, log, b) && c in a && c !in SlotLog(log)
    ensures c in b && c in UndoLeaves(b, LeafLog(log)) && UndoLeaves(b, LeafLog(log))[c] == a[c]
    decreases |log|
  {
    if log != [] {
      var front, e := log[..|log| - 1], log[|log| - 1];
      var mid :| Runs(a, front, mid) && Does(mid, e, b);
      RunsKeeps(a, front, mid);
      LogSnoc(log);
      assert c in mid && c in b;
      assert e.Wrote? ==> (b + e.prev)[c] == mid[c];
      assert e.Allocated? ==> b[c] == mid[c];
      hide Runs, Does, LeafLog, SlotLog;
      LeavesRestored(a, front, mid, c);
      LeavesUndone(e, mid, b, LeafLog(front), c);
    }
  }

  lemma LogSnoc(log: seq<Event>)
    requires log != []
    ensures var front, e := log[..|log| - 1], log[|log| - 1];
      && LeafLog(log) == LeafLog(front) + (if e.Wrote? then [e.prev] else [])
      && (forall c <- SlotLog(front) :: c in SlotLog(log)) && (e.Allocated? ==> e.slot in SlotLog(log))
  {
  }

  lemma LeavesUndone(e: Event, mid: map<Cell, Val>, b: map<Cell, Val>, leaves: seq<map<Cell, Val>>, c: Cell)
    requires c in mid && c in b && if e.Wrote? then (b + e.prev)[c] == mid[c] else b[c] == mid[c]
    ensures var now := leaves + if e.Wrote? then [e.prev] else [];
      c in UndoLeaves(b, now) && c in UndoLeaves(mid, leaves) && UndoLeaves(b, now)[c] == UndoLeaves(mid, leaves)[c]
  {
    if e.Wrote? {
      assert (leaves + [e.prev])[..|leaves|] == leaves;
      UndoLeavesAt(b + e.prev, mid, leaves, c);
    } else {
      assert leaves + [] == leaves;
      UndoLeavesAt(b, mid, leaves, c);
    }
  }

  /** The code's rollback: an old cell ends as it was, unless it was allocated
      into, and then it ends nil. */
  lemma RollbackAt(a: map<Cell, Val>, log: seq<Event>, b: map<Cell, Val>, c: Cell)
    requires Runs(a, log, b) && c in a
    ensures c in Rollback(b, log)
    ensures Rollback(b, log)[c] == if c in SlotLog(log) then NIL else a[c]
  {
    RunsKeeps(a, log, b);
    UndoLeavesAt(b, b, LeafLog(log), c);
    UndoSlotsAt(UndoLeaves(b, LeafLog(log)), SlotLog(log), c);
    if c !in SlotLog(log) { LeavesRestored(a, log, b, c); }
  }

  lemma {:induction false} InOrderAt(g: map<Cell, Val>, h: map<Cell, Val>, log: seq<Event>, c: Cell)
    requires c in g && c in h && g[c] == h[c]
    ensures c in RollbackInOrder(g, log) && c in RollbackInOrder(h, log)
    ensures RollbackInOrder(g, log)[c] == RollbackInOrder(h, log)[c]
    decreases |log|
  {
    if log != [] {
      var front, e := log[..|log| - 1], log[|log| - 1];
      match e
      case Wrote(prev) => InOrderAt(g + prev, h + prev, front, c);
      case Allocated(slot) => InOrderAt(g[slot := NIL], h[slot := NIL], front, c);
    }
  }

  /** One chronological log restores every old cell, without a proviso. */
  lemma {:induction false} InOrderRestores(a: map<Cell, Val>, log: seq<Event>, b: map<Cell, Val>, c: Cell)
    requires Runs(a, log, b) && c in a
    ensures c in RollbackInOrder(b, log) && RollbackInOrder(b, log)[c] == a[c]
    decreases |log|
  {
    if log != [] {
      var front, e := log[..|log| - 1], log[|log| - 1];
      var mid :| Runs(a, front, mid) && Does(mid, e, b);
      RunsKeeps(a, front, mid);
      InOrderRestores(a, front, mid, c);
      InOrderAt(if e.Wrote? then b + e.prev else b[e.slot := NIL], mid, front, c);
    }
  }

  // ---------------------------------------------------------------------
  // The code writes such logs
  // ---------------------------------------------------------------------

  lemma {:induction false} ZeroCells(o: Obj, path: Path, ty: Type)
    ensures forall c <- ZeroAt(o, path, ty) :: c.obj == o
    decreases ty
  {
    if ty.Struct? { ZeroFieldCells(o, path, ty, |ty.fields|); }
  }

  lemma {:induction false} ZeroFieldCells(o: Obj, path: Path, ty: Type, n: nat)
    requires ty.Struct? && n <= |ty.fields|
    ensures forall c <- ZeroFields(o, path, ty, n) :: c.obj == o
    decreases ty, n
  {
    if n > 0 {
      ZeroFieldCells(o, path, ty, n - 1);
      ZeroCells(o, path + [n - 1], ty.fields[n - 1].ty);
    }
  }

  lemma AllocateDoes(h: Heap, slot: Cell, fields: seq<Field>)
    requires Fresh(h) && slot in h.cells && h.cells[slot] == NIL
    ensures Fresh(Allocate(h, slot, fields)) && Does(h.cells, Allocated(slot), Allocate(h, slot, fields).cells)
  {
    ZeroCells(h.next, [], Struct(fields));
  }

  lemma AllocLogSnoc(slots: seq<Cell>, more: seq<Cell>)
    requires |more| <= 1
    ensures AllocLog(slots + more) == AllocLog(slots) + AllocLog(more)
  {
  }

  lemma NoAllocLog(log: seq<Event>)
    ensures log + AllocLog([]) == log
  {
  }

  /** One pointer on the way continues the log. */
  lemma DerefRuns<A>(env: Env<A>, a: map<Cell, Val>, log: seq<Event>, h: Heap, curr: Loc)
    requires Fresh(h) && Runs(a, log, h.cells)
    ensures var d := Deref(env, h, curr); Fresh(d.h) && |d.allocs| <= 1 && Runs(a, log + AllocLog(d.allocs), d.h.cells)
  {
    var d := Deref(env, h, curr);
    if d.allocs == [] {
      NoAllocLog(log);
    } else {
      var slot := d.allocs[0];
      AllocateDoes(h, slot, FieldsOf(env.types, curr.ty.elem));
      hide Runs, Fresh, Does;
      RunsOne(a, log, h.cells, Allocated(slot), d.h.cells);
      assert AllocLog(d.allocs) == [Allocated(slot)];
    }
  }

  /** The allocations of a path continue the log of the call so far. */
  lemma {:induction false} WalkRuns<A>(env: Env<A>, a: map<Cell, Val>, log: seq<Event>, h: Heap, index: Path)
    requires Fresh(h) && Runs(a, log, h.cells)
    ensures var w := Walk(env, h, index); Fresh(w.h) && Runs(a, log + AllocLog(w.allocs), w.h.cells)
    decreases |index|
  {
    hide Runs, Fresh, Deref, AllocLog;
    if index == [] {
      NoAllocLog(log);
    } else {
      var n := |index| - 1;
      WalkRuns(env, a, log, h, index[..n]);
      var w := Walk(env, h, index[..n]);
      if w.loc.Ok? {
        var d := Deref(env, w.h, w.loc.value);
        DerefRuns(env, a, log + AllocLog(w.allocs), w.h, w.loc.value);
        AllocLogSnoc(w.allocs, d.allocs);
        Assoc(log, AllocLog(w.allocs), AllocLog(d.allocs));
      }
    }
  }

  lemma {:induction false} PairsRun<A>(env: Env<A>, h: Heap, args: seq<(Key, A)>)
    requires Fresh(h)
    ensures var p := SetPairs(env, h, args); Fresh(p.h) && Runs(h.cells, p.log, p.h.cells)
    decreases |args|
  {
    if args != [] {
      var n := |args| - 1;
      PairsRun(env, h, args[..n]);
      var p := SetPairs(env, h, args[..n]);
      if p.error.None? { PairRuns(env, h.cells, p.h, p.log, args[n].0, args[n].1); }
    }
  }

  lemma PairRuns<A>(env: Env<A>, a: map<Cell, Val>, h: Heap, log: seq<Event>, key: Key, arg: A)
    requires Fresh(h) && Runs(a, log, h.cells)
    ensures var p := SetPair(env, h, log, key, arg); Fresh(p.h) && Runs(a, p.log, p.h.cells)
  {
    var path := FieldPath(env, key);
    if path.Ok? {
      WalkRuns(env, a, log, h, path.value);
      var w := Walk(env, h, path.value);
      var p := SetPair(env, h, log, key, arg);
      if p.error.None? {
        RunsOne(a, log + AllocLog(w.allocs), w.h.cells, Wrote(Below(w.h.cells, w.loc.value)), p.h.cells);
      }
    }
  }

  // ---------------------------------------------------------------------
  // When a failed call leaves no trace
  // ---------------------------------------------------------------------

  ghost predicate Restored(a: map<Cell, Val>, b: map<Cell, Val>) {
    forall c <- a :: c in b && b[c] == a[c]
  }

  /** Every slot the call allocated into was nil when the call began. */
  ghost predicate SlotsWereNil(a: map<Cell, Val>, log: seq<Event>) {
    forall c <- SlotLog(log) :: c in a ==> a[c] == NIL
  }

  /** A failed call restores every old cell exactly when each slot it allocated
      into was nil when the call began. */
  lemma FailedSetRestores<A>(env: Env<A>, h: Heap, args: seq<(Key, A)>)
    requires Fresh(h) && SetStructResult(env, h, args).1.Some?
    ensures Restored(h.cells, SetStructResult(env, h, args).0) <==> SlotsWereNil(h.cells, SetPairs(env, h, args).log)
  {
    PairsRun(env, h, args);
    var p := SetPairs(env, h, args);
    forall c <- h.cells
      ensures c in Rollback(p.h.cells, p.log)
      ensures Rollback(p.h.cells, p.log)[c] == if c in SlotLog(p.log) then NIL else h.cells[c]
    {
      RollbackAt(h.cells, p.log, p.h.cells, c);
    }
  }

  /** With one chronological log every failed call would restore every old cell. */
  lemma InOrderAlwaysRestores<A>(env: Env<A>, h: Heap, args: seq<(Key, A)>)
    requires Fresh(h)
    ensures Restored(h.cells, RollbackInOrder(SetPairs(env, h, args).h.cells, SetPairs(env, h, args).log))
  {
    PairsRun(env, h, args);
    var p := SetPairs(env, h, args);
    forall c <- h.cells
      ensures c in RollbackInOrder(p.h.cells, p.log) && RollbackInOrder(p.h.cells, p.log)[c] == h.cells[c]
    {
      InOrderRestores(h.cells, p.log, p.h.cells, c);
    }
  }

  /** A cell that was neither assigned nor allocated into keeps its value. */
  lemma {:induction false} UntouchedCells(a: map<Cell, Val>, log: seq<Event>, b: map<Cell, Val>, c: Cell)
    requires Runs(a, log, b) && c in a && c !in SlotLog(log)
    requires forall e <- log :: e.Wrote? ==> c !in e.prev
    ensures c in b && b[c] == a[c]
    decreases |log|
  {
    if log != [] {
      var front, e := log[..|log| - 1], log[|log| - 1];
      var mid :| Runs(a, front, mid) && Does(mid, e, b);
      UntouchedCells(a, front, mid, c);
      assert e in log;
    }
  }

  predicate Set(v: Val) { v.Ptr? && v.to.Some? }

  /** No assignment of the call covered a pointer that was set when the call began. */
  ghost predicate PointersLeftAlone(a: map<Cell, Val>, log: seq<Event>) {
    forall e <- log :: e.Wrote? ==> forall c <- e.prev :: c in a ==> !Set(a[c])
  }

  /** Cells keep their kind, and a set pointer that no assignment covers keeps its value. */
  lemma {:induction false} PointersStay(a: map<Cell, Val>, log: seq<Event>, b: map<Cell, Val>, c: Cell)
    requires Runs(a, log, b) && PointersLeftAlone(a, log) && c in a
    ensures c in b && b[c].Ptr? == a[c].Ptr?
    ensures Set(a[c]) ==> b[c] == a[c]
    ensures c in SlotLog(log) ==> a[c] == NIL
    decreases |log|
  {
    if log != [] {
      var front, e := log[..|log| - 1], log[|log| - 1];
      var mid :| Runs(a, front, mid) && Does(mid, e, b);
      PointersStay(a, front, mid, c);
      assert e in log;
    }
  }

  // ---------------------------------------------------------------------
  // What a key writes, the same key reads
  // ---------------------------------------------------------------------

  /** The pointers that a walk goes through. */
  function PathSlots<A>(env: Env<A>, h: Heap, index: Path): seq<Cell> {
    if index == [] then []
    else
      var n := |index| - 1;
      var w := Walk(env, h, index[..n]);
      PathSlots(env, h, index[..n])
        + (if w.loc.Ok? && w.loc.value.ty.Pointer? then [Cell(w.loc.value.obj, w.loc.value.path)] else [])
  }

  lemma DerefSets<A>(env: Env<A>, h: Heap, curr: Loc)
    requires Deref(env, h, curr).loc.Ok?
    ensures var d, slot := Deref(env, h, curr), Cell(curr.obj, curr.path);
      && (curr.ty.Pointer? ==> slot in d.h.cells && Set(d.h.cells[slot]))
      && forall c <- h.cells :: c in d.h.cells && (Set(h.cells[c]) ==> d.h.cells[c] == h.cells[c])
  {
  }

  lemma {:induction false} SlotsAreSet<A>(env: Env<A>, h: Heap, index: Path)
    requires Walk(env, h, index).loc.Ok?
    ensures forall slot <- PathSlots(env, h, index) ::
              slot in Walk(env, h, index).h.cells && Set(Walk(env, h, index).h.cells[slot])
    decreases |index|
  {
    if index != [] {
      var n := |index| - 1;
      SlotsAreSet(env, h, index[..n]);
      var w := Walk(env, h, index[..n]);
      DerefSets(env, w.h, w.loc.value);
      hide Deref, Set;
    }
  }

  lemma DerefAgain<A>(env: Env<A>, h: Heap, curr: Loc, g: Heap)
    requires Deref(env, h, curr).loc.Ok?
    requires curr.ty.Pointer? ==>
      var slot := Cell(curr.obj, curr.path);
      slot in g.cells && slot in Deref(env, h, curr).h.cells && g.cells[slot] == Deref(env, h, curr).h.cells[slot]
    ensures Deref(env, g, curr) == Walked(g, [], Deref(env, h, curr).loc)
  {
  }

  /** A memory with the same pointers on the way leads to the same field, without allocating. */
  lemma {:induction false} WalkAgain<A>(env: Env<A>, h: Heap, index: Path, g: Heap)
    requires Walk(env, h, index).loc.Ok?
    requires forall slot <- PathSlots(env, h, index) ::
               slot in g.cells && slot in Walk(env, h, index).h.cells
               && g.cells[slot] == Walk(env, h, index).h.cells[slot]
    ensures Walk(env, g, index) == Walked(g, [], Walk(env, h, index).loc)
    decreases |index|
  {
    if index != [] {
      var n := |index| - 1;
      var w := Walk(env, h, index[..n]);
      SlotsAreSet(env, h, index[..n]);
      DerefSets(env, w.h, w.loc.value);
      assert forall slot <- PathSlots(env, h, index[..n]) :: slot in PathSlots(env, h, index);
      if w.loc.value.ty.Pointer? {
        assert Cell(w.loc.value.obj, w.loc.value.path) in PathSlots(env, h, index);
      }
      hide Deref, Set, PathSlots;
      WalkAgain(env, h, index[..n], g);
      DerefAgain(env, w.h, w.loc.value, g);
    }
  }

  /** After a successful pair, the same key leads to the field written, which holds the converted value. */
  lemma SetThenRead<A>(env: Env<A>, h: Heap, log: seq<Event>, key: Key, arg: A)
    requires SetPair(env, h, log, key, arg).error.None?
    requires var w := Walk(env, h, FieldPath(env, key).value);
      forall slot <- PathSlots(env, h, FieldPath(env, key).value) :: !Covers(w.loc.value, slot)
    ensures var p, path := SetPair(env, h, log, key, arg), FieldPath(env, key).value;
      var loc := Walk(env, h, path).loc.value;
      && Walk(env, p.h, path) == Walked(p.h, [], Ok(loc))
      && env.convert(loc.ty, arg).Some?
      && forall c <- p.h.cells | Covers(loc, c) ::
           p.h.cells[c] == (var v, rest := env.convert(loc.ty, arg).value, c.path[|loc.path|..];
                            if p.h.cells[c].Ptr? then Ptr(v.ptr(rest)) else Data(v.data(rest)))
  {
    var path := FieldPath(env, key).value;
    SlotsAreSet(env, h, path);
    hide PathSlots, Walk, FieldPath;
    WalkAgain(env, h, path, SetPair(env, h, log, key, arg).h);
  }

  /** A call that assigns no field holding a set pointer leaves no trace when it fails. */
  lemma LeavingPointersAloneRestores<A>(env: Env<A>, h: Heap, args: seq<(Key, A)>)
    requires Fresh(h) && SetStructResult(env, h, args).1.Some?
    requires PointersLeftAlone(h.cells, SetPairs(env, h, args).log)
    ensures Restored(h.cells, SetStructResult(env, h, args).0)
  {
    PairsRun(env, h, args);
    var p := SetPairs(env, h, args);
    forall c <- SlotLog(p.log) ensures c in h.cells ==> h.cells[c] == NIL {
      if c in h.cells { PointersStay(h.cells, p.log, p.h.cells, c); }
    }
    FailedSetRestores(env, h, args);
  }

  lemma WalkStep<A>(env: Env<A>, h: Heap, front: Path, i: nat)
    ensures Walk(env, h, front + [i]) ==
              var w := Walk(env, h, front);
              if w.loc.Err? then w
              else
                var d := Deref(env, w.h, w.loc.value);
                Walked(d.h, w.allocs + d.allocs, if d.loc.Err? then d.loc else Select(d.loc.value, i))
  {
    assert (front + [i])[..|front|] == front;
  }

  lemma {:induction false} SlotLogged(log: seq<Event>, i: nat)
    requires i < |log| && log[i].Allocated?
    ensures log[i].slot in SlotLog(log)
    decreases |log|
  {
    if i < |log| - 1 { SlotLogged(log[..|log| - 1], i); }
  }

  // The example: struct { *Base }, Base = struct { X }, and a non-nil Base.
  // The pairs are Base = nil, X = 0, and a key that is not a field.

  const ZERO := Value((_: Path) => None, (_: Path) => 0)
  const BASE := [Field(false, true, Scalar)]
  const OUTER := Loc(0, [], Struct([Field(true, true, Pointer("Base"))]), false, true)
  const SLOT := Cell(0, [0])
  const BEFORE := Heap(map[SLOT := Ptr(Some(1)), Cell(1, [0]) := Data(7)], 2)

  function Example(): Env<Value> {
    Env(map["Base" := BASE], OUTER, map["Base" := [0], "X" := [0, 0]], (k: string) => k,
        (ty: Type, v: Value) => Some(v), false)
  }

  lemma WalkToBase(h: Heap)
    ensures Walk(Example(), h, [0]) == Walked(h, [], Ok(Loc(0, [0], Pointer("Base"), true, true)))
  {
    WalkStep(Example(), h, [], 0);
    assert [] + [0] == [0];
  }

  lemma ClearBase()
    ensures var p := SetPair(Example(), BEFORE, [], Name("Base"), ZERO);
      p.error == None && p.h.next == 2 && SLOT in p.h.cells && p.h.cells[SLOT] == NIL
  {
    WalkToBase(BEFORE);
  }

  lemma SetThroughBase(h: Heap, log: seq<Event>)
    requires SLOT in h.cells && h.cells[SLOT] == NIL
    ensures var p := SetPair(Example(), h, log, Name("X"), ZERO);
      p.error == None && Allocated(SLOT) in p.log
  {
    WalkToBase(h);
    WalkStep(Example(), h, [0], 0);
    assert [0] + [0] == [0, 0];
    hide Walk, Assign, Below;
    var p := SetPair(Example(), h, log, Name("X"), ZERO);
    assert p.log[|log|] == Allocated(SLOT);
  }

  lemma PairsStep<A>(env: Env<A>, h: Heap, front: seq<(Key, A)>, key: Key, arg: A)
    ensures SetPairs(env, h, front + [(key, arg)]) ==
              var p := SetPairs(env, h, front); if p.error.Some? then p else SetPair(env, p.h, p.log, key, arg)
  {
    assert (front + [(key, arg)])[..|front|] == front;
  }

  /** A failed call may leave a trace: here the embedded pointer ends nil. */
  lemma FailedSetMayForget(key: Key)
    requires FieldPath(Example(), key).Err?
    ensures var args := [(Name("Base"), ZERO)] + [(Name("X"), ZERO)] + [(key, ZERO)];
      && SetStructResult(Example(), BEFORE, args).1.Some?
      && !Restored(BEFORE.cells, SetStructResult(Example(), BEFORE, args).0)
  {
    var env := Example();
    ClearBase();
    PairsStep(env, BEFORE, [], Name("Base"), ZERO);
    assert [] + [(Name("Base"), ZERO)] == [(Name("Base"), ZERO)];
    var p1 := SetPairs(env, BEFORE, [(Name("Base"), ZERO)]);
    SetThroughBase(p1.h, p1.log);
    PairsStep(env, BEFORE, [(Name("Base"), ZERO)], Name("X"), ZERO);
    PairsStep(env, BEFORE, [(Name("Base"), ZERO)] + [(Name("X"), ZERO)], key, ZERO);
    var args := [(Name("Base"), ZERO)] + [(Name("X"), ZERO)] + [(key, ZERO)];
    var log := SetPairs(env, BEFORE, args).log;
    var i :| 0 <= i < |log| && log[i] == Allocated(SLOT);
    SlotLogged(log, i);
    FailedSetRestores(env, BEFORE, args);
  }

  // ---------------------------------------------------------------------
  // The loops of the code
  // ---------------------------------------------------------------------

  lemma {:induction false} WalkFails<A>(env: Env<A>, h: Heap, index: Path, k: nat)
    requires k <= |index| && Walk(env, h, index[..k]).loc.Err?
    ensures Walk(env, h, index) == Walk(env, h, index[..k])
    decreases |index|
  {
    if k < |index| {
      assert index[..|index| - 1][..k] == index[..k];
      WalkFails(env, h, index[..|index| - 1], k);
    } else {
      assert index[..k] == index;
    }
  }

  lemma {:induction false} PairsFail<A>(env: Env<A>, h: Heap, args: seq<(Key, A)>, k: nat)
    requires k <= |args| && SetPairs(env, h, args[..k]).error.Some?
    ensures SetPairs(env, h, args) == SetPairs(env, h, args[..k])
    decreases |args|
  {
    if k < |args| {
      assert args[..|args| - 1][..k] == args[..k];
      PairsFail(env, h, args[..|args| - 1], k);
    } else {
      assert args[..k] == args;
    }
  }

  lemma {:induction false} LogsOfAllocs(log: seq<Event>, slots: seq<Cell>)
    ensures LeafLog(log + AllocLog(slots)) == LeafLog(log)
    ensures SlotLog(log + AllocLog(slots)) == SlotLog(log) + slots
    decreases |slots|
  {
    var n := |slots|;
    var all := log + AllocLog(slots);
    if n == 0 {
      assert all == log;
    } else {
      assert all[..|all| - 1] == log + AllocLog(slots[..n - 1]);
      assert slots == slots[..n - 1] + [slots[n - 1]];
      LogsOfAllocs(log, slots[..n - 1]);
    }
  }

  lemma LogsOfWrite(log: seq<Event>, prev: map<Cell, Val>)
    ensures LeafLog(log + [Wrote(prev)]) == LeafLog(log) + [prev] && SlotLog(log + [Wrote(prev)]) == SlotLog(log)
  {
    assert (log + [Wrote(prev)])[..|log|] == log;
  }

  // ---------------------------------------------------------------------
  // Arguments without nil pointers
  // ---------------------------------------------------------------------

  /** No conversion of the argument holds a nil pointer. (A type without pointers never reads `ptr`.) */
  ghost predicate NeverNil<A>(env: Env<A>, arg: A) {
    forall ty | env.convert(ty, arg).Some? :: NoNil(env.convert(ty, arg).value)
  }

  ghost predicate NoNil(v: Value) { forall path :: v.ptr(path).Some? }

  /** Cells keep their kind, and a set pointer stays set. */
  ghost predicate KeepsSet(a: map<Cell, Val>, b: map<Cell, Val>) {
    forall c <- a :: c in b && b[c].Ptr? == a[c].Ptr? && (Set(a[c]) ==> Set(b[c]))
  }

  lemma DerefKeeps<A>(env: Env<A>, h: Heap, curr: Loc)
    ensures var d := Deref(env, h, curr);
      KeepsSet(h.cells, d.h.cells) && forall slot <- d.allocs :: slot in h.cells && h.cells[slot] == NIL
  {
  }

  lemma {:induction false} WalkKeeps<A>(env: Env<A>, h: Heap, index: Path)
    ensures var w := Walk(env, h, index);
      KeepsSet(h.cells, w.h.cells) && forall slot <- w.allocs :: slot in h.cells ==> h.cells[slot] == NIL
    decreases |index|
  {
    if index != [] {
      var w := Walk(env, h, index[..|index| - 1]);
      WalkKeeps(env, h, index[..|index| - 1]);
      if w.loc.Ok? { DerefKeeps(env, w.h, w.loc.value); }
      hide Deref;
    }
  }

  lemma LogOfPair<A>(env: Env<A>, h: Heap, log: seq<Event>, key: Key, arg: A)
    ensures var p, path := SetPair(env, h, log, key, arg), FieldPath(env, key);
      if path.Err? then p.log == log
      else
        var w := Walk(env, h, path.value);
        || p.log == log + AllocLog(w.allocs)
        || (w.loc.Ok? && p.log == log + AllocLog(w.allocs) + [Wrote(Below(w.h.cells, w.loc.value))])
  {
    hide Walk, FieldPath, AllocLog, Below, Assign;
  }

  lemma SlotsOfPair<A>(env: Env<A>, h: Heap, log: seq<Event>, key: Key, arg: A)
    ensures SlotLog(SetPair(env, h, log, key, arg).log)
         == SlotLog(log) + (if FieldPath(env, key).Ok? then Walk(env, h, FieldPath(env, key).value).allocs else [])
  {
    hide *;
    LogOfPair(env, h, log, key, arg);
    if FieldPath(env, key).Ok? {
      var w := Walk(env, h, FieldPath(env, key).value);
      LogsOfAllocs(log, w.allocs);
      if w.loc.Ok? { LogsOfWrite(log + AllocLog(w.allocs), Below(w.h.cells, w.loc.value)); }
    } else {
      Assoc(SlotLog(log), [], []);
    }
  }

  /** One pair: slots that were set are never allocated into. */
  lemma PairSlots<A>(env: Env<A>, h: Heap, log: seq<Event>, key: Key, arg: A)
    ensures forall slot <- SlotLog(SetPair(env, h, log, key, arg).log) ::
              slot in SlotLog(log) || (slot in h.cells ==> h.cells[slot] == NIL)
  {
    hide *;
    SlotsOfPair(env, h, log, key, arg);
    if FieldPath(env, key).Ok? { WalkKeeps(env, h, FieldPath(env, key).value); }
  }

  /** Slots that were set stay set unless a nil is written. */
  lemma PairKeeps<A>(env: Env<A>, h: Heap, log: seq<Event>, key: Key, arg: A)
    requires NeverNil(env, arg)
    ensures KeepsSet(h.cells, SetPair(env, h, log, key, arg).h.cells)
  {
    var path := FieldPath(env, key);
    if path.Ok? {
      var w := Walk(env, h, path.value);
      WalkKeeps(env, h, path.value);
      hide Walk, FieldPath, NoNil;
      if SetPair(env, h, log, key, arg).error.None? {
        WriteKeeps(w.h.cells, w.loc.value, env.convert(w.loc.value.ty, arg).value);
      }
      hide Assign;
    }
  }

  lemma WriteKeeps(cells: map<Cell, Val>, loc: Loc, v: Value)
    requires NoNil(v)
    ensures KeepsSet(cells, Assign(cells, loc, v))
  {
  }

  lemma {:induction false} PairsKeep<A>(env: Env<A>, h: Heap, args: seq<(Key, A)>)
    requires forall a <- args :: NeverNil(env, a.1)
    ensures KeepsSet(h.cells, SetPairs(env, h, args).h.cells) && SlotsWereNil(h.cells, SetPairs(env, h, args).log)
    decreases |args|
  {
    if args != [] {
      var n := |args| - 1;
      var (key, arg) := args[n];
      assert args[n] in args;
      PairsKeep(env, h, args[..n]);
      var p := SetPairs(env, h, args[..n]);
      PairKeeps(env, p.h, p.log, key, arg);
      PairSlots(env, p.h, p.log, key, arg);
      hide SetPair, NeverNil, SlotLog;
    }
  }

  /** A call leaves no trace when it fails if no argument, the last one excepted, is converted to a value
      that holds a nil pointer; a call with one pair never does. */
  lemma NeverNilRestores<A>(env: Env<A>, h: Heap, args: seq<(Key, A)>)
    requires Fresh(h) && SetStructResult(env, h, args).1.Some?
    requires args != [] ==> forall a <- args[..|args| - 1] :: NeverNil(env, a.1)
    ensures Restored(h.cells, SetStructResult(env, h, args).0)
  {
    if args != [] {
      var n := |args| - 1;
      PairsKeep(env, h, args[..n]);
      var p := SetPairs(env, h, args[..n]);
      PairSlots(env, p.h, p.log, args[n].0, args[n].1);
      hide SetPair, NeverNil, SlotLog;
    }
    FailedSetRestores(env, h, args);
  }

  class StructSetter<!A> {
    const env: Env<A>
    var cells: map<Cell, Val>
    var next: Obj

    function Memory(): Heap
      reads this
    {
      Heap(cells, next)
    }

    constructor (env: Env<A>, h: Heap)
      ensures this.env == env && Memory() == h
    {
      this.env, cells, next := env, h.cells, h.next;
    }

    /** The pointer step of the walk: `curr` itself, or what it points to. */
    method Through(curr: Loc) returns (loc: Result<Loc, Error>, allocUndos: seq<Cell>)
      modifies this
      ensures Walked(Memory(), allocUndos, loc) == Deref(env, old(Memory()), curr)
    {
      allocUndos := [];
      if !curr.ty.Pointer? {
        return Ok(curr), allocUndos;
      }
      var slot := Cell(curr.obj, curr.path);
      if slot !in cells || cells[slot].Data? {
        return Err(Unsupported), allocUndos;
      }
      if cells[slot].to.None? {
        if !curr.embedded || !(curr.exported || env.allow) {
          return Err(Unaddressable), allocUndos;
        }
        var zero := ZeroAt(next, [], Struct(FieldsOf(env.types, curr.ty.elem)));
        cells, next := zero + cells[slot := Ptr(Some(next))], next + 1;
        allocUndos := [slot];
      }
      return Ok(Loc(cells[slot].to.value, [], Struct(FieldsOf(env.types, curr.ty.elem)), curr.embedded, curr.exported)),
             allocUndos;
    }

    /** Walks the path, allocating nil embedded pointers; the slots allocated are
        returned even when the walk fails. */
    method SafeFieldByIndex(index: Path) returns (loc: Result<Loc, Error>, allocUndos: seq<Cell>)
      modifies this
      ensures Walked(Memory(), allocUndos, loc) == Walk(env, old(Memory()), index)
    {
      var curr := env.root;
      allocUndos := [];
      ghost var h := Memory();
      for k := 0 to |index|
        invariant Walked(Memory(), allocUndos, Ok(curr)) == Walk(env, h, index[..k])
      {
        hide Deref;
        WalkStep(env, h, index[..k], index[k]);
        assert index[..k + 1] == index[..k] + [index[k]];
        if Walk(env, h, index[..k + 1]).loc.Err? { WalkFails(env, h, index, k + 1); }
        var target, slots := Through(curr);
        allocUndos := allocUndos + slots;
        if target.Err? {
          return target, allocUndos;
        }
        curr := target.value;
        if !curr.ty.Struct? {
          return Err(Unsupported), allocUndos;
        }
        if index[k] >= |curr.ty.fields| {
          return Err(IndexOutOfRange), allocUndos;
        }
        var f := curr.ty.fields[index[k]];
        curr := Loc(curr.obj, curr.path + [index[k]], f.ty, f.anonymous, f.exported);
      }
      assert index[..|index|] == index;
      return Ok(curr), allocUndos;
    }

    /** Leaves in reverse, then allocations in reverse. */
    method RollBack(undos: seq<map<Cell, Val>>, allocUndos: seq<Cell>)
      modifies this`cells
      ensures cells == UndoSlots(UndoLeaves(old(cells), undos), allocUndos)
    {
      var i := |undos|;
      assert undos[..i] == undos && allocUndos[..|allocUndos|] == allocUndos;
      while i > 0
        invariant 0 <= i <= |undos|
        invariant UndoLeaves(old(cells), undos) == UndoLeaves(cells, undos[..i])
      {
        i := i - 1;
        assert undos[..i + 1][..i] == undos[..i];
        cells := cells + undos[i];
      }
      i := |allocUndos|;
      ghost var leaves := cells;
      while i > 0
        invariant 0 <= i <= |allocUndos|
        invariant UndoSlots(leaves, allocUndos) == UndoSlots(cells, allocUndos[..i])
      {
        i := i - 1;
        assert allocUndos[..i + 1][..i] == allocUndos[..i];
        cells := cells[allocUndos[i] := NIL];
      }
    }

    method SetStruct(args: seq<(Key, A)>) returns (error: Option<Error>)
      modifies this
      ensures (cells, error) == SetStructResult(env, old(Memory()), args)
    {
      var undos, allocUndos := [], [];
      ghost var log := [];
      for k := 0 to |args|
        invariant Progress(Memory(), log, None) == SetPairs(env, old(Memory()), args[..k])
        invariant undos == LeafLog(log) && allocUndos == SlotLog(log)
      {
        var (key, arg) := args[k];
        ghost var p := SetPair(env, Memory(), log, key, arg);
        PairsStep(env, old(Memory()), args[..k], key, arg);
        assert args[..k + 1] == args[..k] + [(key, arg)];
        if p.error.Some? { PairsFail(env, old(Memory()), args, k + 1); }

        var path := FieldPath(env, key);
        if path.Err? {
          RollBack(undos, allocUndos);
          return Some(path.error);
        }
        var loc, slots := SafeFieldByIndex(path.value);
        LogsOfAllocs(log, slots);
        log := log + AllocLog(slots);
        allocUndos := allocUndos + slots;
        if loc.Err? {
          RollBack(undos, allocUndos);
          return Some(loc.error);
        }
        var field := loc.value;
        if !(field.exported || env.allow) {
          RollBack(undos, allocUndos);
          return Some(Unaddressable);
        }
        var prev := Below(cells, field);
        var v := env.convert(field.ty, arg);
        if v.None? {
          RollBack(undos, allocUndos);
          return Some(NotConvertible);
        }
        LogsOfWrite(log, prev);
        log := log + [Wrote(prev)];
        undos := undos + [prev];
        cells := Assign(cells, field, v.value);
      }
      assert args[..|args|] == args;
      return None;
    }
  }
}
