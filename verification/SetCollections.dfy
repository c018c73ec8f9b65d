/**
  All-or-nothing assignment to maps (`setMap`), slices and arrays (`setIndexable`).
  Conversions are opaque partial functions.
 */
module SetCollections {
  import opened Wrappers

  datatype Error = NilMap | MapKey | NotConvertible | KeyType | IndexOutOfRange | Unaddressable

  // ---------------------------------------------------------------------
  // Maps
  // ---------------------------------------------------------------------

  /** A key argument and a value argument; nil deletes the key. */
  datatype MapArg<A> = MapArg(key: A, val: Option<A>)

  datatype MapEnv<!A, !K, !V> = MapEnv(convertKey: A -> Option<K>, convert: A -> Option<V>)

  function PairError<A, K, V>(env: MapEnv<A, K, V>, arg: MapArg<A>): Option<Error> {
    if env.convertKey(arg.key).None? then Some(MapKey)
    else if arg.val.Some? && env.convert(arg.val.value).None? then Some(NotConvertible)
    else None
  }

  function Store<A, K(==), V>(env: MapEnv<A, K, V>, m: map<K, V>, arg: MapArg<A>): map<K, V>
    requires PairError(env, arg).None?
  {
    var k := env.convertKey(arg.key).value;
    if arg.val.None? then m - {k} else m[k := env.convert(arg.val.value).value]
  }

  /** The first error among the pairs. */
  function FirstError<A, K, V>(env: MapEnv<A, K, V>, args: seq<MapArg<A>>): Option<Error> {
    if args == [] then None
    else if PairError(env, args[0]).Some? then PairError(env, args[0])
    else FirstError(env, args[1..])
  }

  /** A call goes through exactly if every key converts and every value that is not nil does; otherwise it fails
      for the first pair of which one does not, for the key before the value. */
  lemma {:induction false} FirstErrorMeans<A, K, V>(env: MapEnv<A, K, V>, args: seq<MapArg<A>>)
    ensures FirstError(env, args) == None <==>
      forall a <- args :: env.convertKey(a.key).Some? && (a.val.Some? ==> env.convert(a.val.value).Some?)
    ensures FirstError(env, args).Some? ==>
      exists i | 0 <= i < |args| ::
        && FirstError(env, args[..i]) == None
        && if env.convertKey(args[i].key).None? then FirstError(env, args) == Some(MapKey)
           else
             && FirstError(env, args) == Some(NotConvertible)
             && args[i].val.Some? && env.convert(args[i].val.value).None?
  {
    if args != [] {
      FirstErrorMeans(env, args[1..]);
      assert args == [args[0]] + args[1..];
      if PairError(env, args[0]).Some? {
        assert FirstError(env, args[..0]) == None;
      } else if FirstError(env, args).Some? {
        var i :| 0 <= i < |args| - 1 && FirstError(env, args[1..][..i]) == None
                 && if env.convertKey(args[1..][i].key).None? then FirstError(env, args[1..]) == Some(MapKey)
                    else
                      && FirstError(env, args[1..]) == Some(NotConvertible)
                      && args[1..][i].val.Some? && env.convert(args[1..][i].val.value).None?;
        assert args[..i + 1][1..] == args[1..][..i] && args[1..][i] == args[i + 1];
        assert FirstError(env, args[..i + 1]) == None;
      }
    }
  }

  function StoreAll<A, K(==), V>(env: MapEnv<A, K, V>, m: map<K, V>, args: seq<MapArg<A>>): map<K, V>
    requires FirstError(env, args).None?
    decreases |args|
  {
    if args == [] then m
    else StoreAll(env, Store(env, m, args[0]), args[1..])
  }

  /** The last pair for key `k` decides; without one the old entry stays. */
  lemma {:induction false} LastPairDecides<A, K, V>(env: MapEnv<A, K, V>, m: map<K, V>, args: seq<MapArg<A>>,
                                          k: K, i: int)
    requires FirstError(env, args).None?
    requires -1 <= i < |args| && (i >= 0 ==> env.convertKey(args[i].key) == Some(k))
    requires forall j | i < j < |args| :: env.convertKey(args[j].key) != Some(k)
    ensures var r := StoreAll(env, m, args);
      if i == -1 then (k in r <==> k in m) && (k in m ==> r[k] == m[k])
      else if args[i].val.None? then k !in r
      else k in r && Some(r[k]) == env.convert(args[i].val.value)
    decreases |args|
  {
    if args != [] {
      var m1 := Store(env, m, args[0]);
      if i == 0 {
        LastPairDecides(env, m1, args[1..], k, -1);
      } else {
        LastPairDecides(env, m1, args[1..], k, if i > 0 then i - 1 else -1);
      }
    }
  }

  /** One recorded undo: the old entry of a key, or its absence. */
  datatype MapUndo<K, V> = MapUndo(key: K, prev: Option<V>)

  function Undo<K(==), V>(m: map<K, V>, undos: seq<MapUndo<K, V>>): map<K, V>
    decreases |undos|
  {
    if undos == [] then m
    else
      var u := undos[|undos| - 1];
      Undo(if u.prev.Some? then m[u.key := u.prev.value] else m - {u.key}, undos[..|undos| - 1])
  }

  class MapSetter<A, K(==), V> {
    var entries: map<K, V>

    method SetMap(env: MapEnv<A, K, V>, isNil: bool, args: seq<MapArg<A>>) returns (error: Option<Error>)
      modifies this
      ensures error == if isNil then Some(NilMap) else FirstError(env, args)
      ensures entries == if error.None? then StoreAll(env, old(entries), args) else old(entries)
    {
      if isNil {
        return Some(NilMap);
      }
      var undos: seq<MapUndo<K, V>> := [];
      for i := 0 to |args|
        invariant FirstError(env, args) == FirstError(env, args[i..])
        invariant FirstError(env, args).None? ==> StoreAll(env, old(entries), args) == StoreAll(env, entries, args[i..])
        invariant Undo(entries, undos) == old(entries)
      {
        assert args[i..][1..] == args[i + 1..];
        var k := env.convertKey(args[i].key);
        if k.None? {
          RollBack(undos);
          return Some(MapKey);
        }
        var prev := if k.value in entries then Some(entries[k.value]) else None;
        if args[i].val.Some? && env.convert(args[i].val.value).None? {
          RollBack(undos);
          return Some(NotConvertible);
        }
        ghost var before := entries;
        undos := undos + [MapUndo(k.value, prev)];
        assert undos[..|undos| - 1] + [MapUndo(k.value, prev)] == undos;
        if args[i].val.None? {
          entries := entries - {k.value};
          assert prev.None? ==> before - {k.value} == before;
        } else {
          entries := entries[k.value := env.convert(args[i].val.value).value];
        }
        assert (if prev.Some? then entries[k.value := prev.value] else entries - {k.value}) == before;
      }
      return None;
    }

    method RollBack(undos: seq<MapUndo<K, V>>)
      modifies this
      ensures entries == Undo(old(entries), undos)
    {
      var i := |undos|;
      assert undos[..i] == undos;
      while i > 0
        invariant 0 <= i <= |undos|
        invariant Undo(old(entries), undos) == Undo(entries, undos[..i])
      {
        i := i - 1;
        assert undos[..i + 1][..i] == undos[..i];
        var u := undos[i];
        entries := if u.prev.Some? then entries[u.key := u.prev.value] else entries - {u.key};
      }
    }
  }

  // ---------------------------------------------------------------------
  // Slices and arrays
  // ---------------------------------------------------------------------

  /** An index argument, None when it is not an integer, and a value argument. */
  datatype ItemArg<A> = ItemArg(index: Option<int>, val: A)

  /** What a call fixes: the conversion, the zero value, whether the target is a
      slice, whether its header can be set, and its length at the start. */
  datatype ItemEnv<!A, T> = ItemEnv(convert: A -> Option<T>, zero: T, growable: bool, settable: bool, origLen: nat)

  /** Negative indices count from the original length. */
  function Position<A, T>(env: ItemEnv<A, T>, arg: ItemArg<A>): int {
    if arg.index.None? then -1
    else if arg.index.value < 0 then arg.index.value + env.origLen
    else arg.index.value
  }

  function ItemError<A, T>(env: ItemEnv<A, T>, len: nat, arg: ItemArg<A>): Option<Error> {
    var j := Position(env, arg);
    if arg.index.None? then Some(KeyType)
    else if j < 0 then Some(IndexOutOfRange)
    else if j >= len && env.growable && !env.settable then Some(Unaddressable)
    else if j >= len && !env.growable then Some(IndexOutOfRange)
    else if env.convert(arg.val).None? then Some(NotConvertible)
    else None
  }

  /** An index means a position from the front, or from the end of the original contents if it is negative. */
  lemma PositionMeans<A, T>(env: ItemEnv<A, T>, arg: ItemArg<A>, j: nat)
    requires arg.index.Some?
    ensures Position(env, arg) == j
       <==> arg.index.value == j || (j < env.origLen && arg.index.value == j - env.origLen)
    ensures Position(env, arg) < 0 <==> arg.index.value < 0 && -arg.index.value > env.origLen
  {
  }

  /** Which pairs are put, and with which error the others end. */
  lemma ItemErrorMeans<A, T>(env: ItemEnv<A, T>, len: nat, arg: ItemArg<A>)
    ensures ItemError(env, len, arg) == None <==>
      && arg.index.Some? && 0 - env.origLen <= arg.index.value && env.convert(arg.val).Some?
      && (if arg.index.value < 0 then arg.index.value + env.origLen < len || (env.growable && env.settable)
          else arg.index.value < len || (env.growable && env.settable))
    ensures ItemError(env, len, arg) == Some(KeyType) <==> arg.index.None?
    ensures ItemError(env, len, arg) == Some(Unaddressable) <==>
      arg.index.Some? && env.growable && !env.settable && Position(env, arg) >= len
    ensures ItemError(env, len, arg) == Some(IndexOutOfRange) <==>
      arg.index.Some? && (arg.index.value < 0 - env.origLen || (!env.growable && Position(env, arg) >= len))
  {
  }

  function FirstItemError<A, T>(env: ItemEnv<A, T>, len: nat, args: seq<ItemArg<A>>): Option<Error>
    decreases |args|
  {
    if args == [] then None
    else if ItemError(env, len, args[0]).Some? then ItemError(env, len, args[0])
    else
      var j := Position(env, args[0]);
      FirstItemError(env, if j < len then len else j + 1, args[1..])
  }

  function Grown<T>(s: seq<T>, len: nat, zero: T): (r: seq<T>)
    requires |s| <= len
    ensures |r| == len && r[..|s|] == s
  {
    s + seq(len - |s|, _ => zero)
  }

  function Put<A, T>(env: ItemEnv<A, T>, s: seq<T>, arg: ItemArg<A>): seq<T>
    requires ItemError(env, |s|, arg).None?
  {
    var j := Position(env, arg);
    Grown(s, if j < |s| then |s| else j + 1, env.zero)[j := env.convert(arg.val).value]
  }

  function PutAll<A, T>(env: ItemEnv<A, T>, s: seq<T>, args: seq<ItemArg<A>>): seq<T>
    requires FirstItemError(env, |s|, args).None?
    decreases |args|
  {
    if args == [] then s else PutAll(env, Put(env, s, args[0]), args[1..])
  }

  /** The last pair for position `j` decides; without one the old item stays, and a
      new item is zero.  The length is the smallest that holds every position. */
  lemma {:induction false} LastItemDecides<A, T>(env: ItemEnv<A, T>, s: seq<T>, args: seq<ItemArg<A>>, j: nat, i: int)
    requires FirstItemError(env, |s|, args).None?
    requires -1 <= i < |args| && (i >= 0 ==> Position(env, args[i]) == j)
    requires forall k | i < k < |args| :: Position(env, args[k]) != j
    ensures var r := PutAll(env, s, args);
      && |s| <= |r|
      && (forall k | 0 <= k < |args| :: Position(env, args[k]) < |r|)
      && (|r| == |s| || exists k | 0 <= k < |args| :: Position(env, args[k]) == |r| - 1)
      && (i >= 0 ==> Some(r[j]) == env.convert(args[i].val))
      && (i == -1 && j < |s| ==> r[j] == s[j])
      && (i == -1 && |s| <= j < |r| ==> r[j] == env.zero)
    decreases |args|
  {
    if args != [] {
      var s1 := Put(env, s, args[0]);
      var i1 := if i > 0 then i - 1 else -1;
      LastItemDecides(env, s1, args[1..], j, i1);
      var r := PutAll(env, s, args);
      assert Position(env, args[0]) < |s1|;
      if |r| != |s| && |r| != |s1| {
        var k :| 0 <= k < |args| - 1 && Position(env, args[1..][k]) == |r| - 1;
        assert Position(env, args[k + 1]) == |r| - 1;
      }
      assert forall k | 0 < k < |args| :: args[k] == args[1..][k - 1];
    }
  }

  /** A call fails with the error of the first pair that cannot be put after those before it. */
  lemma {:induction false} FirstItemFails<A, T>(env: ItemEnv<A, T>, s: seq<T>, args: seq<ItemArg<A>>) returns (i: nat)
    requires FirstItemError(env, |s|, args).Some?
    ensures i < |args| && FirstItemError(env, |s|, args[..i]) == None
    ensures FirstItemError(env, |s|, args) == ItemError(env, |PutAll(env, s, args[..i])|, args[i])
    decreases |args|
  {
    if ItemError(env, |s|, args[0]).Some? {
      i := 0;
    } else {
      i := FirstItemFails(env, Put(env, s, args[0]), args[1..]);
      assert args[1..][i] == args[i + 1] && args[..i + 1][1..] == args[1..][..i];
      i := i + 1;
    }
  }

  function Undone<T>(s: seq<T>, undos: seq<(nat, T)>): seq<T>
    requires forall u <- undos :: u.0 < |s|
    decreases |undos|
  {
    if undos == [] then s
    else
      var u := undos[|undos| - 1];
      Undone(s[u.0 := u.1], undos[..|undos| - 1])
  }

  lemma UndoneSnoc<T>(s: seq<T>, undos: seq<(nat, T)>, j: nat, prev: T)
    requires j < |s| && forall u <- undos :: u.0 < |s|
    ensures Undone(s, undos + [(j, prev)]) == Undone(s[j := prev], undos)
  {
    assert (undos + [(j, prev)])[..|undos|] == undos;
  }

  lemma UndonePut<A, T>(env: ItemEnv<A, T>, s: seq<T>, arg: ItemArg<A>, undos: seq<(nat, T)>, prev: T)
    requires ItemError(env, |s|, arg).None? && Position(env, arg) < |s| && prev == s[Position(env, arg)]
    requires forall u <- undos :: u.0 < |s|
    ensures |Put(env, s, arg)| == |s|
    ensures Undone(Put(env, s, arg), undos + [(Position(env, arg), prev)]) == Undone(s, undos)
  {
    var j := Position(env, arg);
    UndoneSnoc(Put(env, s, arg), undos, j, prev);
    assert Put(env, s, arg)[j := prev] == s;
  }

  lemma Unroll<A, T>(env: ItemEnv<A, T>, s: seq<T>, args: seq<ItemArg<A>>, i: nat)
    requires i < |args|
    ensures var rest := FirstItemError(env, |s|, args[i..]);
      if ItemError(env, |s|, args[i]).Some? then rest == ItemError(env, |s|, args[i])
      else
        && rest == FirstItemError(env, |Put(env, s, args[i])|, args[i + 1..])
        && (rest.None? ==> PutAll(env, s, args[i..]) == PutAll(env, Put(env, s, args[i]), args[i + 1..]))
  {
    assert args[i..][1..] == args[i + 1..];
  }

  class Indexable<T> {
    var data: array<T>
    var len: nat

    ghost predicate Valid()
      reads this
    {
      len <= data.Length
    }

    function Contents(): seq<T>
      requires Valid()
      reads this, data
    {
      data[..len]
    }

    /** `reflect.MakeSlice` and `reflect.Copy` */
    method MakeCopy(zero: T, newLen: nat, newCap: nat) returns (ns: array<T>)
      requires Valid() && len <= newLen <= newCap
      ensures fresh(ns) && ns.Length == newCap && ns[..newLen] == Grown(Contents(), newLen, zero)
    {
      ns := new T[newCap](i requires 0 <= i reads this, data requires Valid() => if i < len then data[i] else zero);
    }

    /** One pair: the position written and the item it held, or an error. */
    method SetItem<A>(env: ItemEnv<A, T>, arg: ItemArg<A>) returns (error: Option<Error>, idx: int, prev: T)
      requires Valid() && env.origLen <= len
      modifies this, data
      ensures Valid() && error == ItemError(env, old(len), arg)
      ensures data == old(data) || (env.growable && env.settable && fresh(data))
      ensures !(env.growable && env.settable) ==> data == old(data) && len == old(len)
      ensures error.Some? ==> old(len) <= len && Contents()[..old(len)] == old(Contents())
      ensures error.None? ==> Contents() == Put(env, old(Contents()), arg) && idx == Position(env, arg) < len
      ensures error.None? && len == old(len) ==> prev == old(Contents())[idx]
    {
      prev := env.zero;
      idx := 0;
      if arg.index.None? {
        return Some(KeyType), idx, prev;
      }
      idx := arg.index.value;
      if idx < 0 {
        idx := idx + env.origLen;
      }
      if idx < 0 {
        return Some(IndexOutOfRange), idx, prev;
      }
      if env.growable && idx >= len {
        if !env.settable {
          return Some(Unaddressable), idx, prev;
        }
        Grow(env.zero, idx + 1);
      }
      if idx >= len {
        return Some(IndexOutOfRange), idx, prev;
      }
      prev := data[idx];
      var v := env.convert(arg.val);
      if v.None? {
        return Some(NotConvertible), idx, prev;
      }
      ghost var grown := Contents();
      data[idx] := v.value;
      assert Contents() == grown[idx := v.value];
      return None, idx, prev;
    }

    method SetIndexable<A>(env: ItemEnv<A, T>, args: seq<ItemArg<A>>) returns (error: Option<Error>)
      requires Valid() && env.origLen == len
      modifies this, data
      ensures Valid() && error == FirstItemError(env, old(len), args)
      ensures Contents() == if error.None? then PutAll(env, old(Contents()), args) else old(Contents())
      ensures data == old(data) || (env.growable && env.settable && fresh(data))
    {
      var origLen := len;
      var origSlice := MakeCopy(env.zero, len, data.Length);
      var undos: seq<(nat, T)> := [];
      for i := 0 to |args|
        invariant Valid() && origLen <= len
        invariant data == old(data) || (env.growable && env.settable && fresh(data))
        invariant data != origSlice && origLen <= origSlice.Length && origSlice[..origLen] == old(Contents())
        invariant FirstItemError(env, origLen, args) == FirstItemError(env, len, args[i..])
        invariant FirstItemError(env, origLen, args).None? ==>
                    PutAll(env, old(Contents()), args) == PutAll(env, Contents(), args[i..])
        invariant forall u <- undos :: u.0 < len
        invariant (env.growable && env.settable)
               || (len == origLen && data == old(data) && Undone(Contents(), undos) == old(Contents()))
      {
        hide FirstItemError, PutAll, Undone, Put, ItemError, Position;
        Unroll(env, Contents(), args, i);
        ghost var before := Contents();
        var err, idx, prev := SetItem(env, args[i]);
        if err.Some? {
          assert len == |before| ==> Contents() == before;
          RollBack(env.growable && env.settable, origSlice, origLen, undos);
          return err;
        }
        if len == |before| { UndonePut(env, before, args[i], undos, prev); }
        undos := undos + [(idx, prev)];
      }
      return None;
    }

    /** Automatic growth: a new backing array, and a header that shows `newLen` items. */
    method Grow(zero: T, newLen: nat)
      requires Valid() && len < newLen
      modifies this
      ensures Valid() && fresh(data) && len == newLen && Contents() == Grown(old(Contents()), newLen, zero)
    {
      var newCap := data.Length;
      if newLen > newCap {
        newCap := if newLen * 2 > 4 then newLen * 2 else 4;
      }
      var ns := MakeCopy(zero, newLen, newCap);
      data, len := ns, newLen;
    }

    /** A settable slice gets its saved header and contents back; otherwise the old
        items are put back one by one, last first. */
    method RollBack(whole: bool, origSlice: array<T>, origLen: nat, undos: seq<(nat, T)>)
      requires Valid() && origLen <= origSlice.Length
      requires forall u <- undos :: u.0 < len
      modifies this, data
      ensures Valid() && (whole ==> data == origSlice && len == origLen && data[..] == old(origSlice[..]))
      ensures !whole ==> data == old(data) && len == old(len) && Contents() == Undone(old(Contents()), undos)
    {
      if whole {
        data, len := origSlice, origLen;
        return;
      }
      var i := |undos|;
      assert undos[..i] == undos;
      while i > 0
        invariant 0 <= i <= |undos| && Valid() && data == old(data) && len == old(len)
        invariant Undone(old(Contents()), undos) == Undone(Contents(), undos[..i])
      {
        i := i - 1;
        assert undos[..i + 1][..i] == undos[..i];
        ghost var now := Contents();
        data[undos[i].0] := undos[i].1;
        assert Contents() == now[undos[i].0 := undos[i].1];
      }
    }
  }
}
