/**
 luaL_ref and luaL_unref: integer references to values in a table, with a free list threaded
 through the freed slots and its head in slot 0.
 */
module RefTable {

  const FREELIST_REF := 0
  const LUA_REFNIL := -1

  /** Lua values as far as the free list is concerned. */
  datatype Val = Nil | Int(k: int) | Other(id: int)

  /** lua_tointeger of a slot: anything but an integer counts as 0 here. */
  function ToInteger(v: Val): int { if v.Int? then v.k else 0 }

  function Get(t: map<int, Val>, k: int): Val { if k in t then t[k] else Nil }

  function Set(t: map<int, Val>, k: int, v: Val): map<int, Val> { if v == Nil then t - {k} else t[k := v] }

  /** A length of a table, in Lua's sense: some border between used and unused integer keys. */
  predicate Border(t: map<int, Val>, n: nat) { (n == 0 || Get(t, n) != Nil) && Get(t, n + 1) == Nil }

  /** With the keys 1 to top in use and none beyond, the border is unique. */
  lemma {:induction false} BorderUnique(t: map<int, Val>, top: nat, n: nat)
    requires forall k :: 1 <= k <= top ==> Get(t, k) != Nil
    requires forall k :: k > top ==> Get(t, k) == Nil
    ensures Border(t, n) <==> n == top
  {
    if n < top { assert Get(t, n + 1) != Nil; }
    if n > top { assert Get(t, n) == Nil; }
  }

  /** The slots along the free list link to each other; the last one holds nil. */
  ghost predicate Threaded(t: map<int, Val>, free: seq<int>) {
    && Get(t, FREELIST_REF) == (if free == [] then Nil else Int(free[0]))
    && (forall i {:trigger free[i]} :: 0 <= i < |free| ==> Get(t, free[i]) == (if i + 1 < |free| then Int(free[i + 1])
        else Nil))
  }

  ghost predicate Distinct(s: seq<int>) { forall i, j :: 0 <= i < j < |s| ==> s[i] != s[j] }

  /**
   Every reference up to top is live or on the free list, never both; the list is acyclic, and live
   references hold their values.
   */
  ghost predicate Ok(t: map<int, Val>, live: map<int, Val>, free: seq<int>, top: nat) {
    && Distinct(free) && Threaded(t, free)
    && (forall r {:trigger r in live} :: r in live ==>
        1 <= r <= top && r !in free && live[r] != Nil && Get(t, r) == live[r])
    && (forall i {:trigger free[i]} :: 0 <= i < |free| ==> 1 <= free[i] <= top)
    && (forall k {:trigger k in live} :: 1 <= k <= top ==> k in live || k in free)
    && (forall k {:trigger k in t} :: k in t ==> 0 <= k <= top && t[k] != Nil)
  }

  /** The head of the list is in slot 0, and the table has no holes when the list is empty. */
  lemma {:induction false} Head(t: map<int, Val>, live: map<int, Val>, free: seq<int>, top: nat)
    requires Ok(t, live, free, top)
    ensures free != [] ==> ToInteger(Get(t, FREELIST_REF)) == free[0] >= 1
    ensures free == [] ==> ToInteger(Get(t, FREELIST_REF)) == 0
    ensures free == [] ==> forall k :: 1 <= k <= top ==> Get(t, k) != Nil
    ensures forall k :: k > top ==> Get(t, k) == Nil
  {
    if free == [] {
      forall k | 1 <= k <= top ensures Get(t, k) != Nil { assert k in live; }
    }
  }

  /** Taking the first free slot. */
  lemma {:induction false} Pop(t: map<int, Val>, live: map<int, Val>, free: seq<int>, top: nat, v: Val)
    requires Ok(t, live, free, top) && free != [] && v != Nil
    ensures free[0] !in live
    ensures Ok(Set(Set(t, FREELIST_REF, Get(t, free[0])), free[0], v), live[free[0] := v], free[1..], top)
  {
    PopThreaded(t, free, v);
    PopLive(t, live, free, top, v);
    PopRest(live, free, top, v);
    hide Get, Set, Threaded;
  }

  lemma {:induction false} PopLive(t: map<int, Val>, live: map<int, Val>, free: seq<int>, top: nat, v: Val)
    requires Ok(t, live, free, top) && free != [] && v != Nil
    ensures var ref := free[0]; var t', live' := Set(Set(t, FREELIST_REF, Get(t, ref)), ref, v), live[ref := v];
      && ref !in live
      && (forall r {:trigger r in live'} :: r in live' ==>
          1 <= r <= top && r !in free[1..] && live'[r] != Nil && Get(t', r) == live'[r])
      && (forall k {:trigger k in t'} :: k in t' ==> 0 <= k <= top && t'[k] != Nil)
  {
    hide Threaded;
    var ref := free[0];
    assert ref in free && free == [ref] + free[1..];
    KeysSet(t, FREELIST_REF, Get(t, ref));
    KeysSet(Set(t, FREELIST_REF, Get(t, ref)), ref, v);
  }

  lemma {:induction false} PopRest(live: map<int, Val>, free: seq<int>, top: nat, v: Val)
    requires free != [] && Distinct(free)
    requires forall i {:trigger free[i]} :: 0 <= i < |free| ==> 1 <= free[i] <= top
    requires forall k {:trigger k in live} :: 1 <= k <= top ==> k in live || k in free
    ensures var rest, live' := free[1..], live[free[0] := v];
      && Distinct(rest) && (forall i {:trigger rest[i]} :: 0 <= i < |rest| ==> 1 <= rest[i] <= top)
      && (forall k {:trigger k in live'} :: 1 <= k <= top ==> k in live' || k in rest)
  {
    var rest := free[1..];
    assert free == [free[0]] + rest;
    assert forall i :: 0 <= i < |rest| ==> rest[i] == free[i + 1];
    forall k | k in free && k != free[0] ensures k in rest { InFront(rest, free[0], k); }
  }

  lemma {:induction false} PopThreaded(t: map<int, Val>, free: seq<int>, v: Val)
    requires Threaded(t, free) && free != [] && Distinct(free) && v != Nil
        && forall i {:trigger free[i]} :: 0 <= i < |free| ==> free[i] != FREELIST_REF
    ensures Threaded(Set(Set(t, FREELIST_REF, Get(t, free[0])), free[0], v), free[1..])
  {
    var ref, rest := free[0], free[1..];
    var t' := Set(Set(t, FREELIST_REF, Get(t, ref)), ref, v);
    assert forall k :: Get(t', k) == if k == ref then v else if k == FREELIST_REF then Get(t, ref) else Get(t, k);
    forall i {:trigger rest[i]} | 0 <= i < |rest| ensures Get(t', rest[i]) == if i + 1 < |rest| then Int(rest[i + 1])
        else Nil {
      assert rest[i] == free[i + 1];
    }
  }

  lemma {:induction false} KeysSet(t: map<int, Val>, k: int, v: Val)
    ensures forall x :: x in Set(t, k, v) ==>
      (x in t && Set(t, k, v)[x] == t[x] && x != k) || (x == k && Set(t, k, v)[x] == v != Nil)
  {
  }

  /** A new slot behind the last one. */
  lemma {:induction false} Grow(t: map<int, Val>, live: map<int, Val>, top: nat, v: Val)
    requires Ok(t, live, [], top) && v != Nil
    ensures top + 1 !in live && Ok(Set(t, top + 1, v), live[top + 1 := v], [], top + 1)
  {
  }

  /** Freeing a live slot puts it in front of the list. */
  lemma {:induction false} Push(t: map<int, Val>, live: map<int, Val>, free: seq<int>, top: nat, ref: int)
    requires Ok(t, live, free, top) && ref in live
    ensures Ok(Set(Set(t, ref, Get(t, FREELIST_REF)), FREELIST_REF, Int(ref)), live - {ref}, [ref] + free, top)
  {
    assert FREELIST_REF !in free;
    PushThreaded(t, free, ref);
    PushLive(t, live, free, top, ref);
    PushRest(live, free, top, ref);
    hide Get, Set, Threaded;
  }

  lemma {:induction false} PushLive(t: map<int, Val>, live: map<int, Val>, free: seq<int>, top: nat, ref: int)
    requires Ok(t, live, free, top) && ref in live
    ensures var t', live' := Set(Set(t, ref, Get(t, FREELIST_REF)), FREELIST_REF, Int(ref)), live - {ref};
      && (forall r {:trigger r in live'} :: r in live' ==>
          1 <= r <= top && r !in [ref] + free && live'[r] != Nil && Get(t', r) == live'[r])
      && (forall k {:trigger k in t'} :: k in t' ==> 0 <= k <= top && t'[k] != Nil)
  {
    hide Threaded;
    KeysSet(t, ref, Get(t, FREELIST_REF));
    KeysSet(Set(t, ref, Get(t, FREELIST_REF)), FREELIST_REF, Int(ref));
  }

  lemma {:induction false} PushRest(live: map<int, Val>, free: seq<int>, top: nat, ref: int)
    requires 1 <= ref <= top && ref !in free && Distinct(free)
    requires forall i {:trigger free[i]} :: 0 <= i < |free| ==> 1 <= free[i] <= top
    requires forall k {:trigger k in live} :: 1 <= k <= top ==> k in live || k in free
    ensures var free', live' := [ref] + free, live - {ref};
      && Distinct(free') && (forall i {:trigger free'[i]} :: 0 <= i < |free'| ==> 1 <= free'[i] <= top)
      && (forall k {:trigger k in live'} :: 1 <= k <= top ==> k in live' || k in free')
  {
    forall k ensures k in [ref] + free <==> k == ref || k in free { InFront(free, ref, k); }
  }

  lemma {:induction false} InFront(free: seq<int>, ref: int, k: int)
    ensures k in [ref] + free <==> k == ref || k in free
  {
  }

  lemma {:induction false} PushThreaded(t: map<int, Val>, free: seq<int>, ref: int)
    requires Threaded(t, free) && ref !in free && ref != FREELIST_REF && FREELIST_REF !in free
    ensures Threaded(Set(Set(t, ref, Get(t, FREELIST_REF)), FREELIST_REF, Int(ref)), [ref] + free)
  {
    var t', free' := Set(Set(t, ref, Get(t, FREELIST_REF)), FREELIST_REF, Int(ref)), [ref] + free;
    assert forall k :: Get(t', k) == if k == FREELIST_REF then Int(ref) else if k == ref then Get(t, FREELIST_REF)
        else Get(t, k);
    forall i {:trigger free'[i]} | 0 <= i < |free'| ensures Get(t', free'[i]) == if i + 1 < |free'|
        then Int(free'[i + 1]) else Nil {
      if i > 0 { assert free'[i] == free[i - 1] && free[i - 1] in free; }
    }
  }

  class Refs {
    var t: map<int, Val>
    /** References handed out and not freed, with their values. */
    ghost var live: map<int, Val>
    /** The free list, head first. */
    ghost var free: seq<int>
    /** Highest reference ever handed out. */
    ghost var top: nat

    ghost predicate Valid()
      reads this
    {
      Ok(t, live, free, top)
    }

    constructor ()
      ensures Valid() && live == map[] && top == 0
    {
      t, live, free, top := map[], map[], [], 0;
    }

    /**
     luaL_ref: nil has a fixed reference; otherwise the reference is new, and all others keep their
     values. len is what the table reports as its length; it is asked only when there are no holes.
     */
    method Ref(v: Val, len: nat) returns (ref: int)
      requires Valid() && (free == [] ==> Border(t, len))
      modifies this
      ensures Valid()
      ensures v == Nil ==> ref == LUA_REFNIL && live == old(live) && t == old(t)
      ensures v != Nil ==> ref >= 1 && ref !in old(live) && live == old(live)[ref := v]
      ensures v != Nil ==> ref == (if old(free) != [] then old(free)[0] else old(top) + 1)
      ensures free == if v != Nil && old(free) != [] then old(free)[1..] else old(free)
      ensures top == (if v != Nil && old(free) == [] then old(top) + 1 else old(top))
    {
      hide Ok;
      if v == Nil { return LUA_REFNIL; }
      Head(t, live, free, top);
      ref := ToInteger(Get(t, FREELIST_REF));
      if ref != 0 {
        Pop(t, live, free, top, v);
        t := Set(t, FREELIST_REF, Get(t, ref));
        free := free[1..];
      } else {
        BorderUnique(t, top, len);
        Grow(t, live, top, v);
        ref := len + 1;
        top := top + 1;
      }
      t := Set(t, ref, v);
      live := live[ref := v];
    }

    /** luaL_unref of a live reference; a negative one is ignored. */
    method Unref(ref: int)
      requires Valid() && (ref >= 0 ==> ref in live)
      modifies this
      ensures Valid() && live == (if ref >= 0 then old(live) - {ref} else old(live)) && top == old(top)
      ensures free == (if ref >= 0 then [ref] + old(free) else old(free))
    {
      hide Ok;
      if ref >= 0 {
        Push(t, live, free, top, ref);
        t := Set(t, ref, Get(t, FREELIST_REF));
        t := Set(t, FREELIST_REF, Int(ref));
        live := live - {ref};
        free := [ref] + free;
      }
    }

    /** The value behind a live reference. */
    method Value(ref: int) returns (v: Val)
      requires Valid() && ref in live
      ensures v == live[ref]
    {
      v := Get(t, ref);
    }
  }
}
