/**
  Which field a key of `setStruct` means, and what a successful call writes:
  a reading of field paths from the front, without allocation and without the
  functions of the walk, which the walk is proved to follow.
 */
module SetStructFields {
  import opened Wrappers
  import opened SetStruct

  // ---------------------------------------------------------------------
  // Reading a field path from the front
  // ---------------------------------------------------------------------

  /** What a pointer field points to, or the field itself if it is no pointer. */
  function Pointee(types: map<string, seq<Field>>, cells: map<Cell, Val>, at: Loc): Option<Loc> {
    var c := Cell(at.obj, at.path);
    if !at.ty.Pointer? then Some(at)
    else if c !in cells || !Set(cells[c]) then None
    else Some(Loc(cells[c].to.value, [], Struct(FieldsOf(types, at.ty.elem)), at.embedded, at.exported))
  }

  /** The field with number `i` of a struct, or of the struct a pointer points to. */
  function FieldOf(types: map<string, seq<Field>>, cells: map<Cell, Val>, at: Loc, i: nat): Option<Loc> {
    match Pointee(types, cells, at)
    case None => None
    case Some(o) =>
      if !o.ty.Struct? || i >= |o.ty.fields| then None
      else
        var f := o.ty.fields[i];
        Some(Loc(o.obj, o.path + [i], f.ty, f.anonymous, f.exported))
  }

  /** The field at the end of a path, if all pointers before it are set. */
  function Resolve(types: map<string, seq<Field>>, cells: map<Cell, Val>, at: Loc, index: Path): Option<Loc>
    decreases |index|
  {
    if index == [] then Some(at)
    else
      match FieldOf(types, cells, at, index[0])
      case None => None
      case Some(next) => Resolve(types, cells, next, index[1..])
  }

  lemma {:induction false} ResolveSnoc(types: map<string, seq<Field>>, cells: map<Cell, Val>, at: Loc,
                                       index: Path, i: nat)
    ensures Resolve(types, cells, at, index + [i]) ==
      match Resolve(types, cells, at, index)
      case None => None
      case Some(p) => FieldOf(types, cells, p, i)
    decreases |index|
  {
    hide FieldOf;
    if index == [] {
      assert index + [i] == [i] && [i][1..] == [];
    } else {
      assert (index + [i])[1..] == index[1..] + [i];
      match FieldOf(types, cells, at, index[0])
      case None =>
      case Some(next) => ResolveSnoc(types, cells, next, index[1..], i);
    }
  }

  /** The last step of a path. */
  lemma ResolveLast(types: map<string, seq<Field>>, cells: map<Cell, Val>, at: Loc, index: Path)
    requires index != []
    ensures var n := |index| - 1;
      Resolve(types, cells, at, index) ==
        match Resolve(types, cells, at, index[..n])
        case None => None
        case Some(p) => FieldOf(types, cells, p, index[n])
  {
    assert index[..|index| - 1] + [index[|index| - 1]] == index;
    ResolveSnoc(types, cells, at, index[..|index| - 1], index[|index| - 1]);
  }

  /** Every set pointer of `a` is the same in `b`. */
  ghost predicate SetStays(a: map<Cell, Val>, b: map<Cell, Val>) {
    forall c <- a :: Set(a[c]) ==> c in b && b[c] == a[c]
  }

  lemma {:induction false} ResolveStays(types: map<string, seq<Field>>, a: map<Cell, Val>, b: map<Cell, Val>, at: Loc,
                                        index: Path)
    requires SetStays(a, b) && Resolve(types, a, at, index).Some?
    ensures Resolve(types, b, at, index) == Resolve(types, a, at, index)
    decreases |index|
  {
    if index != [] {
      FieldStays(types, a, b, at, index[0]);
      hide FieldOf, SetStays;
      ResolveStays(types, a, b, FieldOf(types, a, at, index[0]).value, index[1..]);
    }
  }

  lemma FieldStays(types: map<string, seq<Field>>, a: map<Cell, Val>, b: map<Cell, Val>, at: Loc, i: nat)
    requires SetStays(a, b) && FieldOf(types, a, at, i).Some?
    ensures FieldOf(types, b, at, i) == FieldOf(types, a, at, i)
  {
  }

  // ---------------------------------------------------------------------
  // The walk follows it
  // ---------------------------------------------------------------------

  lemma DerefStays<A>(env: Env<A>, h: Heap, curr: Loc)
    ensures SetStays(h.cells, Deref(env, h, curr).h.cells)
  {
  }

  lemma StepFollows<A>(env: Env<A>, h: Heap, curr: Loc, i: nat)
    requires Deref(env, h, curr).loc.Ok?
    ensures var d := Deref(env, h, curr);
      match FieldOf(env.types, d.h.cells, curr, i)
      case None => Select(d.loc.value, i).Err?
      case Some(f) => Select(d.loc.value, i) == Ok(f)
  {
  }

  lemma {:induction false} WalkStays<A>(env: Env<A>, h: Heap, index: Path)
    ensures SetStays(h.cells, Walk(env, h, index).h.cells)
    decreases |index|
  {
    if index != [] {
      var w := Walk(env, h, index[..|index| - 1]);
      WalkStays(env, h, index[..|index| - 1]);
      if w.loc.Ok? { DerefStays(env, w.h, w.loc.value); }
      hide Deref, Set;
    }
  }

  /** A walk that succeeds ends at the field that the path means in the memory it leaves. */
  lemma {:induction false} WalkResolves<A>(env: Env<A>, h: Heap, index: Path)
    requires Walk(env, h, index).loc.Ok?
    ensures var w := Walk(env, h, index); Resolve(env.types, w.h.cells, env.root, index) == Some(w.loc.value)
    decreases |index|
  {
    if index != [] {
      var n := |index| - 1;
      var w := Walk(env, h, index[..n]);
      WalkResolves(env, h, index[..n]);
      var d := Deref(env, w.h, w.loc.value);
      DerefStays(env, w.h, w.loc.value);
      ResolveStays(env.types, w.h.cells, d.h.cells, env.root, index[..n]);
      ResolveLast(env.types, d.h.cells, env.root, index);
      StepFollows(env, w.h, w.loc.value, index[n]);
      hide Deref, Select, Resolve, FieldOf, SetStays;
    }
  }

  /** A path that means a field already needs no allocation. */
  lemma {:induction false} ResolvedWalks<A>(env: Env<A>, h: Heap, index: Path)
    requires Resolve(env.types, h.cells, env.root, index).Some?
    ensures Walk(env, h, index) == Walked(h, [], Ok(Resolve(env.types, h.cells, env.root, index).value))
    decreases |index|
  {
    if index != [] {
      var n := |index| - 1;
      ResolveLast(env.types, h.cells, env.root, index);
      ResolvedWalks(env, h, index[..n]);
      var p := Resolve(env.types, h.cells, env.root, index[..n]).value;
      StepResolved(env, h, p, index[n]);
      hide Deref, Select, Resolve, FieldOf;
    }
  }

  lemma StepResolved<A>(env: Env<A>, h: Heap, curr: Loc, i: nat)
    requires FieldOf(env.types, h.cells, curr, i).Some?
    ensures var d := Deref(env, h, curr);
      && d.h == h && d.allocs == [] && d.loc.Ok?
      && Select(d.loc.value, i) == Ok(FieldOf(env.types, h.cells, curr, i).value)
  {
  }

  // ---------------------------------------------------------------------
  // Where the field lies
  // ---------------------------------------------------------------------

  /** Without a pointer on the way the field lies in the root object at the path itself; otherwise in the object
      that the last pointer leads to, at the rest of the path. */
  ghost predicate Lies(root: Loc, slots: seq<Cell>, cells: map<Cell, Val>, index: Path, obj: Obj, path: Path) {
    if slots == [] then obj == root.obj && path == root.path + index
    else
      var slot := slots[|slots| - 1];
      && slot in cells && cells[slot] == Ptr(Some(obj))
      && |path| <= |index| && path == index[|index| - |path|..]
  }

  lemma LiesByValue(root: Loc, slots: seq<Cell>, a: map<Cell, Val>, b: map<Cell, Val>, front: Path, i: nat, obj: Obj,
                    path: Path)
    requires Lies(root, slots, a, front, obj, path) && SetStays(a, b)
    ensures Lies(root, slots, b, front + [i], obj, path + [i])
  {
    if slots == [] {
      assert root.path + front + [i] == root.path + (front + [i]);
    } else {
      var k := |front| - |path|;
      assert (front + [i])[k..] == front[k..] + [i];
    }
  }

  lemma LiesThrough(root: Loc, slots: seq<Cell>, slot: Cell, cells: map<Cell, Val>, front: Path, i: nat, obj: Obj)
    requires slot in cells && cells[slot] == Ptr(Some(obj))
    ensures Lies(root, slots + [slot], cells, front + [i], obj, [i])
  {
    assert (front + [i])[|front|..] == [i];
  }

  lemma DerefPoints<A>(env: Env<A>, h: Heap, curr: Loc)
    requires Deref(env, h, curr).loc.Ok?
    ensures var d, slot := Deref(env, h, curr), Cell(curr.obj, curr.path);
      if curr.ty.Pointer? then
        slot in d.h.cells && d.h.cells[slot] == Ptr(Some(d.loc.value.obj)) && d.loc.value.path == []
      else d.loc.value == curr
  {
  }

  lemma WalkUnfolds<A>(env: Env<A>, h: Heap, index: Path)
    requires index != [] && Walk(env, h, index).loc.Ok?
    ensures var n := |index| - 1;
      var w, r := Walk(env, h, index[..n]), Walk(env, h, index);
      && w.loc.Ok? && Deref(env, w.h, w.loc.value).loc.Ok?
      && var curr, d := w.loc.value, Deref(env, w.h, w.loc.value);
      && r.h == d.h && r.loc.value.obj == d.loc.value.obj && r.loc.value.path == d.loc.value.path + [index[n]]
      && PathSlots(env, h, index)
           == PathSlots(env, h, index[..n]) + (if curr.ty.Pointer? then [Cell(curr.obj, curr.path)] else [])
  {
    hide Deref;
  }

  /** Where the field lies that a walk reaches; the last step of its path is the last index. */
  lemma {:induction false} FieldLies<A>(env: Env<A>, h: Heap, index: Path)
    requires Walk(env, h, index).loc.Ok?
    ensures var w := Walk(env, h, index);
      && Lies(env.root, PathSlots(env, h, index), w.h.cells, index, w.loc.value.obj, w.loc.value.path)
      && (index != [] ==> w.loc.value.path != [] && w.loc.value.path[|w.loc.value.path| - 1] == index[|index| - 1])
    decreases |index|
  {
    if index == [] {
      assert env.root.path + index == env.root.path;
    } else {
      hide *;
      var n := |index| - 1;
      WalkUnfolds(env, h, index);
      var front, slots, w := index[..n], PathSlots(env, h, index[..n]), Walk(env, h, index[..n]);
      FieldLies(env, h, front);
      var curr := w.loc.value;
      var d := Deref(env, w.h, curr);
      DerefStays(env, w.h, curr);
      DerefPoints(env, w.h, curr);
      assert front + [index[n]] == index;
      if curr.ty.Pointer? {
        LiesThrough(env.root, slots, Cell(curr.obj, curr.path), d.h.cells, front, index[n], d.loc.value.obj);
        assert [] + [index[n]] == [index[n]];
      } else {
        assert slots + [] == slots;
        LiesByValue(env.root, slots, w.h.cells, d.h.cells, front, index[n], curr.obj, curr.path);
      }
    }
  }

  // ---------------------------------------------------------------------
  // What is allocated, and why a walk fails
  // ---------------------------------------------------------------------

  /** Only nil pointers of embedded fields that may be written are allocated. */
  predicate MayAllocate<A>(env: Env<A>, p: Loc) { p.ty.Pointer? && p.embedded && (p.exported || env.allow) }

  ghost predicate Reaches<A>(env: Env<A>, cells: map<Cell, Val>, index: Path, k: nat, p: Loc) {
    k < |index| && Resolve(env.types, cells, env.root, index[..k]) == Some(p)
  }

  lemma ReachesLater<A>(env: Env<A>, a: map<Cell, Val>, b: map<Cell, Val>, index: Path, k: nat, p: Loc)
    requires SetStays(a, b) && k < |index| - 1 && Reaches(env, a, index[..|index| - 1], k, p)
    ensures Reaches(env, b, index, k, p)
  {
    assert index[..|index| - 1][..k] == index[..k];
    ResolveStays(env.types, a, b, env.root, index[..k]);
  }

  lemma DerefAllocates<A>(env: Env<A>, h: Heap, curr: Loc)
    ensures forall slot <- Deref(env, h, curr).allocs ::
              slot == Cell(curr.obj, curr.path) && MayAllocate(env, curr) && slot in h.cells && h.cells[slot] == NIL
  {
  }

  /** The slots a walk allocates are pointers on its path: embedded, writable, and nil until then. */
  lemma {:induction false} WalkAllocates<A>(env: Env<A>, h: Heap, index: Path, slot: Cell)
    requires slot in Walk(env, h, index).allocs
    ensures exists k: nat, p: Loc ::
              Reaches(env, Walk(env, h, index).h.cells, index, k, p) && MayAllocate(env, p)
              && slot == Cell(p.obj, p.path)
    ensures slot in h.cells ==> h.cells[slot] == NIL
    decreases |index|
  {
    WalkKeeps(env, h, index);
    if index != [] {
      var n := |index| - 1;
      var w, r := Walk(env, h, index[..n]), Walk(env, h, index);
      if w.loc.Ok? { DerefStays(env, w.h, w.loc.value); }
      if slot in w.allocs {
        WalkAllocates(env, h, index[..n], slot);
        var k: nat, p: Loc :| Reaches(env, w.h.cells, index[..n], k, p) && MayAllocate(env, p)
                              && slot == Cell(p.obj, p.path);
        hide Deref;
        ReachesLater(env, w.h.cells, r.h.cells, index, k, p);
      } else {
        DerefAllocates(env, w.h, w.loc.value);
        WalkResolves(env, h, index[..n]);
        ResolveStays(env.types, w.h.cells, r.h.cells, env.root, index[..n]);
        assert Reaches(env, r.h.cells, index, n, w.loc.value);
      }
    }
  }

  /** Why a walk cannot go on from the field `p` to number `i`. */
  predicate Blocks<A>(env: Env<A>, cells: map<Cell, Val>, p: Loc, i: nat, e: Error) {
    var c := Cell(p.obj, p.path);
    match p.ty
    case Pointer(elem) =>
      if c !in cells || cells[c].Data? then e == Unsupported
      else if cells[c] == NIL then e == Unaddressable && !MayAllocate(env, p)
      else e == IndexOutOfRange && i >= |FieldsOf(env.types, elem)|
    case Struct(fields) => e == IndexOutOfRange && i >= |fields|
    case Scalar => e == Unsupported
  }

  lemma StepFails<A>(env: Env<A>, h: Heap, curr: Loc, i: nat)
    ensures var d := Deref(env, h, curr);
      && (d.loc.Err? ==> Blocks(env, d.h.cells, curr, i, d.loc.error))
      && (d.loc.Ok? && Select(d.loc.value, i).Err? ==> Blocks(env, d.h.cells, curr, i, Select(d.loc.value, i).error))
  {
  }

  lemma WalkBreaks<A>(env: Env<A>, h: Heap, index: Path)
    requires index != [] && Walk(env, h, index).loc.Err? && Walk(env, h, index[..|index| - 1]).loc.Ok?
    ensures var w, r := Walk(env, h, index[..|index| - 1]), Walk(env, h, index);
      && r.h == Deref(env, w.h, w.loc.value).h && Blocks(env, r.h.cells, w.loc.value, index[|index| - 1], r.loc.error)
  {
    var w := Walk(env, h, index[..|index| - 1]);
    StepFails(env, w.h, w.loc.value, index[|index| - 1]);
    hide Deref, Select, Blocks;
  }

  /** A walk that fails does so at a field it reached, for the reason its error names. */
  lemma {:induction false} WalkFailsFor<A>(env: Env<A>, h: Heap, index: Path)
    requires Walk(env, h, index).loc.Err?
    ensures var w := Walk(env, h, index);
      exists k: nat, p: Loc :: Reaches(env, w.h.cells, index, k, p) && Blocks(env, w.h.cells, p, index[k], w.loc.error)
    decreases |index|
  {
    if index != [] {
      var n := |index| - 1;
      var w, r := Walk(env, h, index[..n]), Walk(env, h, index);
      if w.loc.Err? {
        WalkFailsFor(env, h, index[..n]);
        var k: nat, p: Loc :| Reaches(env, w.h.cells, index[..n], k, p)
                              && Blocks(env, w.h.cells, p, index[..n][k], w.loc.error);
        hide Blocks, Deref, Resolve;
        assert index[..n][..k] == index[..k];
        assert Reaches(env, r.h.cells, index, k, p);
      } else {
        WalkBreaks(env, h, index);
        DerefStays(env, w.h, w.loc.value);
        WalkResolves(env, h, index[..n]);
        hide Blocks, Deref, Walk;
        ResolveStays(env.types, w.h.cells, r.h.cells, env.root, index[..n]);
        assert Reaches(env, r.h.cells, index, n, w.loc.value);
      }
    }
  }

  // ---------------------------------------------------------------------
  // A new object holds zero values
  // ---------------------------------------------------------------------

  /** The type of the part of a value at a path of field numbers. */
  function PartType(ty: Type, path: Path): Option<Type>
    decreases |path|
  {
    if path == [] then Some(ty)
    else if ty.Struct? && path[0] < |ty.fields| then PartType(ty.fields[path[0]].ty, path[1..])
    else None
  }

  /** The cell of a part, if it has one: data and pointers do, structs only through their parts. */
  function ZeroPart(ty: Type, path: Path): Option<Val> {
    match PartType(ty, path)
    case Some(Scalar) => Some(Data(0))
    case Some(Pointer(_)) => Some(NIL)
    case _ => None
  }

  function Lookup(cells: map<Cell, Val>, c: Cell): Option<Val> { if c in cells then Some(cells[c]) else None }

  /** The zero value of a type has a zero cell for each of its parts and no other. */
  lemma {:induction false} ZeroHolds(o: Obj, base: Path, ty: Type, c: Cell)
    ensures Lookup(ZeroAt(o, base, ty), c)
         == if c.obj == o && base <= c.path then ZeroPart(ty, c.path[|base|..]) else None
    decreases ty
  {
    match ty
    case Scalar => OnlyCell(o, base, c);
    case Pointer(_) => OnlyCell(o, base, c);
    case Struct(fields) => ZeroFieldsHold(o, base, ty, |fields|, c);
  }

  lemma OnlyCell(o: Obj, base: Path, c: Cell)
    ensures c == Cell(o, base) <==> c.obj == o && base <= c.path && c.path[|base|..] == []
  {
  }

  lemma {:induction false} ZeroFieldsHold(o: Obj, base: Path, ty: Type, n: nat, c: Cell)
    requires ty.Struct? && n <= |ty.fields|
    ensures Lookup(ZeroFields(o, base, ty, n), c)
         == if c.obj == o && base < c.path && c.path[|base|] < n then ZeroPart(ty, c.path[|base|..]) else None
    decreases ty, n
  {
    if n > 0 {
      ZeroFieldsHold(o, base, ty, n - 1, c);
      ZeroHolds(o, base + [n - 1], ty.fields[n - 1].ty, c);
      FieldPart(base, c.path, n - 1, ty);
      hide ZeroPart;
    }
  }

  lemma FieldPart(base: Path, path: Path, i: nat, ty: Type)
    requires ty.Struct? && i < |ty.fields|
    ensures base + [i] <= path <==> base < path && path[|base|] == i
    ensures base + [i] <= path ==> ZeroPart(ty, path[|base|..]) == ZeroPart(ty.fields[i].ty, path[|base| + 1..])
  {
    if base < path && path[|base|] == i {
      assert path[..|base| + 1] == base + [i];
      assert path[|base|..][1..] == path[|base| + 1..];
    }
    if base + [i] <= path {
      assert path[..|base|] == base && path[|base|] == i;
    }
  }

  /** An allocation stores the pointer, adds a zero object, and touches nothing else. */
  lemma AllocateAdds(h: Heap, slot: Cell, fields: seq<Field>, c: Cell)
    requires Fresh(h) && slot in h.cells
    ensures Lookup(Allocate(h, slot, fields).cells, c) ==
      if c == slot then Some(Ptr(Some(h.next)))
      else if c.obj == h.next then ZeroPart(Struct(fields), c.path)
      else Lookup(h.cells, c)
  {
    ZeroHolds(h.next, [], Struct(fields), c);
    assert c.path[0..] == c.path;
    hide ZeroAt, ZeroPart;
  }

  // ---------------------------------------------------------------------
  // Keys, and what a call writes
  // ---------------------------------------------------------------------

  /** A name means itself, or else its capitalised form; an index counts from either end. */
  lemma KeyMeans<A>(env: Env<A>, key: Key)
    requires env.root.ty.Struct?
    ensures var n, path := |env.root.ty.fields|, FieldPath(env, key);
      match key
      case Name(k) =>
        && (k in env.index ==> path == Ok(env.index[k]))
        && (k !in env.index && env.capitalize(k) in env.index ==> path == Ok(env.index[env.capitalize(k)]))
        && (k !in env.index && env.capitalize(k) !in env.index ==> path == Err(FieldNotFound))
      case Index(i) => path == if -n <= i < n then Ok([i % n]) else Err(IndexOutOfRange)
      case BadKey => path == Err(KeyType)
  {
    if key.Index? {
      var n, i := |env.root.ty.fields|, key.i;
      if -n <= i < 0 { assert (i + n) % n == i + n; }
    }
  }

  /** What field `loc` holds at cell `c` after a value has been stored in it. */
  function Stored(loc: Loc, v: Value, c: Cell, was: Val): Val
    requires loc.path <= c.path
  {
    var rest := c.path[|loc.path|..];
    if was.Ptr? then Ptr(v.ptr(rest)) else Data(v.data(rest))
  }

  /** What the last pair of a successful call has done: `g` is the memory after the pairs before it, `mid` that
      after the walk, which ends at `loc`. */
  ghost predicate Writes<A>(env: Env<A>, g: Heap, mid: map<Cell, Val>, allocs: seq<Cell>, path: Path, loc: Loc, arg: A,
                            after: map<Cell, Val>) {
    && Resolve(env.types, mid, env.root, path) == Some(loc)
    && (loc.exported || env.allow) && env.convert(loc.ty, arg).Some?
    && (forall c <- g.cells ::
          c in mid && if c in allocs then g.cells[c] == NIL && Set(mid[c]) else mid[c] == g.cells[c])
    && after.Keys == mid.Keys
    && (forall c <- mid ::
          after[c] == if c.obj == loc.obj && loc.path <= c.path
                      then Stored(loc, env.convert(loc.ty, arg).value, c, mid[c]) else mid[c])
  }

  /** The walk changes no old cell but the nil slots it allocates into. */
  lemma {:induction false} WalkTouches<A>(env: Env<A>, h: Heap, index: Path)
    ensures var w := Walk(env, h, index);
      forall c <- h.cells :: c in w.h.cells && if c in w.allocs then h.cells[c] == NIL && Set(w.h.cells[c])
                                               else w.h.cells[c] == h.cells[c]
    decreases |index|
  {
    if index != [] {
      var w := Walk(env, h, index[..|index| - 1]);
      WalkTouches(env, h, index[..|index| - 1]);
      if w.loc.Ok? { DerefTouches(env, w.h, w.loc.value); }
      hide Deref;
    }
  }

  lemma DerefTouches<A>(env: Env<A>, h: Heap, curr: Loc)
    ensures var d := Deref(env, h, curr);
      && (forall c <- h.cells :: c in d.h.cells && if c in d.allocs then h.cells[c] == NIL && Set(d.h.cells[c])
                                                   else d.h.cells[c] == h.cells[c])
      && (forall slot <- d.allocs :: slot in h.cells)
  {
  }

  lemma PairWrites<A>(env: Env<A>, g: Heap, log: seq<Event>, key: Key, arg: A)
    requires SetPair(env, g, log, key, arg).error.None?
    ensures FieldPath(env, key).Ok?
    ensures var path := FieldPath(env, key).value;
      var w := Walk(env, g, path);
      w.loc.Ok?
      && Writes(env, g, w.h.cells, w.allocs, path, w.loc.value, arg, SetPair(env, g, log, key, arg).h.cells)
  {
    var path := FieldPath(env, key).value;
    var w := Walk(env, g, path);
    WalkTouches(env, g, path);
    WalkResolves(env, g, path);
    hide Walk, Resolve, FieldPath, Set;
  }

  /** A successful call has done its pairs in order, and the last of them stores the converted value in the field
      that its key means and changes nothing else of what was there, nil pointers on the way excepted. */
  lemma LastPairWrites<A>(env: Env<A>, h: Heap, args: seq<(Key, A)>, key: Key, arg: A)
    requires SetStructResult(env, h, args + [(key, arg)]).1.None?
    ensures SetStructResult(env, h, args) == (SetPairs(env, h, args).h.cells, None) && FieldPath(env, key).Ok?
    ensures var g, path := SetPairs(env, h, args).h, FieldPath(env, key).value;
      var w := Walk(env, g, path);
      w.loc.Ok?
      && Writes(env, g, w.h.cells, w.allocs, path, w.loc.value, arg, SetStructResult(env, h, args + [(key, arg)]).0)
  {
    var p := SetPairs(env, h, args);
    PairsStep(env, h, args, key, arg);
    PairWrites(env, p.h, p.log, key, arg);
    hide SetPair, Walk, FieldPath, Writes, Rollback;
  }

  /** Without pairs nothing happens, and a call fails with the error of its first pair that fails. */
  lemma {:induction false} FailsAtFirst<A>(env: Env<A>, h: Heap, args: seq<(Key, A)>)
    ensures SetStructResult(env, h, []) == (h.cells, None)
    ensures SetStructResult(env, h, args).1.Some? ==>
      exists k | 0 <= k < |args| ::
        var p := SetPairs(env, h, args[..k]);
        && p.error.None?
        && SetPair(env, p.h, p.log, args[k].0, args[k].1).error == SetStructResult(env, h, args).1
    decreases |args|
  {
    hide SetPair, Rollback;
    if args != [] {
      var n := |args| - 1;
      if SetPairs(env, h, args[..n]).error.Some? {
        FailsAtFirst(env, h, args[..n]);
        var k :| 0 <= k < n && SetPairs(env, h, args[..n][..k]).error.None?
                 && SetPair(env, SetPairs(env, h, args[..n][..k]).h, SetPairs(env, h, args[..n][..k]).log,
                            args[..n][k].0, args[..n][k].1).error == SetPairs(env, h, args[..n]).error;
        assert args[..n][..k] == args[..k];
      }
    }
  }

  /** The errors of one pair, in the order of the checks. */
  lemma PairError<A>(env: Env<A>, h: Heap, log: seq<Event>, key: Key, arg: A)
    ensures var path, e := FieldPath(env, key), SetPair(env, h, log, key, arg).error;
      if path.Err? then e == Some(path.error)
      else
        match Walk(env, h, path.value).loc
        case Err(error) => e == Some(error)
        case Ok(loc) =>
          && (e == Some(Unaddressable) <==> !loc.exported && !env.allow)
          && (e == Some(NotConvertible) <==> (loc.exported || env.allow) && env.convert(loc.ty, arg).None?)
          && (e == None <==> (loc.exported || env.allow) && env.convert(loc.ty, arg).Some?)
  {
    hide Walk, FieldPath, Assign, Below;
  }
}
