// The registry of live C API handles: one map from handles to owners and two counters.
module HandleRegistry {
  import opened Basics

  type Handle = nat
  type ObjectId = nat

  // `live` maps a handle to the object its shared owner keeps; None is an empty owner.
  datatype Registry = Registry(live: map<Handle, Option<ObjectId>>, created: nat, released: nat)

  const EMPTY_REGISTRY := Registry(map[], 0, 0)

  // What acquiring a handle returns: whether it was live, and the owner copied from its entry.
  datatype Lease = Lease(acquired: bool, owner: Option<ObjectId>)

  predicate Registrable(r: Registry, h: Handle) {
    h != 0 && h !in r.live
  }

  function Registered(r: Registry, h: Handle, owner: Option<ObjectId>): Registry {
    if Registrable(r, h) then Registry(r.live[h := owner], r.created + 1, r.released) else r
  }

  predicate Contains(r: Registry, h: Handle) {
    h != 0 && h in r.live
  }

  function Released(r: Registry, h: Handle): Registry {
    if Contains(r, h) then Registry(r.live - {h}, r.created, r.released + 1) else r
  }

  function LeaseOf(r: Registry, h: Handle): Lease {
    if Contains(r, h) then Lease(true, r.live[h]) else Lease(false, None)
  }

  // Every handle ever registered is either still live or was released once.
  ghost predicate Balanced(r: Registry) {
    r.created == r.released + |r.live|
  }

  lemma RegistryStaysBalanced(r: Registry, h: Handle, owner: Option<ObjectId>)
    requires Balanced(r)
    ensures Balanced(Registered(r, h, owner)) && Balanced(Released(r, h))
  {
    if Contains(r, h) {
      assert r.live.Keys == (r.live - {h}).Keys + {h};
    }
  }

  // A handle can be acquired exactly between its registration and its release, and a second
  // release, or a second registration of a live handle, changes nothing. The null
  // handle is never live.
  lemma RegisterReleaseAcquire(r: Registry, h: Handle, owner: Option<ObjectId>)
    ensures Registrable(r, h) ==>
      && LeaseOf(Registered(r, h, owner), h) == Lease(true, owner)
      && Released(Registered(r, h, owner), h).live == r.live
    ensures !LeaseOf(Released(r, h), h).acquired && Released(Released(r, h), h) == Released(r, h)
    ensures LeaseOf(r, h).acquired ==> Registered(r, h, owner) == r
    ensures h == 0 ==> Registered(r, h, owner) == r && Released(r, h) == r && !LeaseOf(r, h).acquired
  {
  }

  ghost predicate Ascending(s: seq<Handle>) {
    forall i, j :: 0 <= i < j < |s| ==> s[i] < s[j]
  }

  // The place of h in an ascending list.
  method InsertHandle(s: seq<Handle>, h: Handle) returns (t: seq<Handle>)
    requires Ascending(s) && h !in s
    ensures Ascending(t) && forall x :: x in t <==> x in s || x == h
  {
    var p := 0;
    while p < |s| && s[p] < h
      invariant 0 <= p <= |s|
      invariant forall i :: 0 <= i < p ==> s[i] < h
    {
      p := p + 1;
    }
    t := s[..p] + [h] + s[p..];
    InsertedAscends(s, h, p);
    InsertedMembers(s[..p], h, s[p..]);
    assert s == s[..p] + s[p..];
  }

  lemma InsertedMembers(a: seq<Handle>, h: Handle, b: seq<Handle>)
    ensures forall x :: x in a + [h] + b <==> x in a + b || x == h
  {
  }

  lemma InsertedAscends(s: seq<Handle>, h: Handle, p: nat)
    requires Ascending(s) && h !in s && p <= |s|
    requires forall i :: 0 <= i < p ==> s[i] < h
    requires p < |s| ==> s[p] >= h
    ensures Ascending(s[..p] + [h] + s[p..])
  {
    var t := s[..p] + [h] + s[p..];
    assert p < |s| ==> s[p] in s;
    forall i, j | 0 <= i < j < |t| ensures t[i] < t[j] {
      assert t[i] == if i < p then s[i] else if i == p then h else s[i - 1];
      assert t[j] == if j < p then s[j] else if j == p then h else s[j - 1];
      assert j > p ==> s[p] <= s[j - 1];
    }
  }

  class HandleRegistry {
    var liveHandles: map<Handle, Option<ObjectId>>
    var totalCreated: nat
    var totalReleased: nat

    ghost function Value(): Registry
      reads this
    {
      Registry(liveHandles, totalCreated, totalReleased)
    }

    constructor ()
      ensures Value() == EMPTY_REGISTRY && Balanced(Value())
    {
      liveHandles, totalCreated, totalReleased := map[], 0, 0;
    }

    method Register(h: Handle, owner: Option<ObjectId>) returns (inserted: bool)
      requires Balanced(Value())
      modifies this
      ensures Value() == Registered(old(Value()), h, owner) && Balanced(Value())
      ensures inserted == old(Registrable(Value(), h))
    {
      RegistryStaysBalanced(Value(), h, owner);
      if h == 0 {
        return false;
      }
      inserted := h !in liveHandles;
      if inserted {
        liveHandles := liveHandles[h := owner];
        totalCreated := totalCreated + 1;
      }
    }

    // The released owner is handed out, to be dropped outside the lock.
    method Release(h: Handle) returns (released: bool, releasedOwner: Option<ObjectId>)
      requires Balanced(Value())
      modifies this
      ensures Value() == Released(old(Value()), h) && Balanced(Value())
      ensures Lease(released, releasedOwner) == LeaseOf(old(Value()), h)
    {
      RegistryStaysBalanced(Value(), h, None);
      if h == 0 || h !in liveHandles {
        return false, None;
      }
      releasedOwner := liveHandles[h];
      liveHandles := liveHandles - {h};
      totalReleased := totalReleased + 1;
      released := true;
    }

    method Acquire(h: Handle) returns (lease: Lease)
      ensures lease == LeaseOf(Value(), h)
    {
      if h == 0 || h !in liveHandles {
        return Lease(false, None);
      }
      lease := Lease(true, liveHandles[h]);
    }

    // All live handles, in ascending order.
    method Snapshot() returns (handles: seq<Handle>)
      ensures Ascending(handles) && forall h :: h in handles <==> h in liveHandles
    {
      handles := [];
      var rest := liveHandles.Keys;
      while rest != {}
        invariant Ascending(handles) && rest <= liveHandles.Keys
        invariant forall h :: h in handles <==> h in liveHandles && h !in rest
        decreases rest
      {
        var h :| h in rest;
        handles := InsertHandle(handles, h);
        rest := rest - {h};
      }
    }
  }
}
