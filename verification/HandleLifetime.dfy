// The lifetime protocol of C API objects under any interleaving of threads: allocation,
// registration, leases, release of the public handle, and capture sessions that pin their face
// session. Every mutex-protected registry call and every change of a use count is one step.
module HandleLifetime {
  import opened Basics
  import opened HandleRegistry

  datatype Kind = SessionKind | StreamKind | BitmapKind | FeatureKind | SnapshotKind | CaptureKind

  // A shared owner held by a thread: a lease, the creator's own, or one a release handed out.
  datatype Token = Token(thread: nat, slot: nat)

  // `uses` is the use count its shared owners maintain; `pin` is the session a capture leases.
  datatype Object = Object(kind: Kind, addr: Handle, uses: nat, pin: Option<ObjectId>)

  datatype World = World(
    objects: map<ObjectId, Object>, nextId: ObjectId, registries: map<Kind, Registry>, held: map<Token, ObjectId>)

  const NEW_WORLD := World(map[], 0, map[], map[])

  function Reg(w: World, k: Kind): Registry {
    if k in w.registries then w.registries[k] else EMPTY_REGISTRY
  }

  datatype Step =
    | Allocate(t: Token, kind: Kind, addr: Handle, leased: Option<Token>)
    | Register(t: Token)
    | RegisterFeature(h: Handle)  // face features are registered without an owner
    | Acquire(t: Token, kind: Kind, h: Handle)
    | Release(t: Token, kind: Kind, h: Handle)
    | Drop(t: Token)

  // When a thread can take a step. The allocator never hands out the address of a live object; a
  // capture is built from a lease on a live face session.
  predicate Enabled(w: World, s: Step) {
    match s
    case Allocate(t, kind, addr, leased) =>
      && t !in w.held && addr != 0 && kind != FeatureKind
      && (forall o :: o in w.objects ==> w.objects[o].addr != addr)
      && (kind == CaptureKind <==> leased.Some?)
      && (leased.Some? ==> leased.value in w.held && w.held[leased.value] in w.objects
                           && w.objects[w.held[leased.value]].kind == SessionKind)
    case Register(t) => t in w.held && w.held[t] in w.objects
    case RegisterFeature(_) => true
    case Acquire(t, kind, _) => t !in w.held && kind != FeatureKind
    case Release(t, _, _) => t !in w.held
    case Drop(t) => t in w.held && w.held[t] in w.objects
  }

  function WithUses(objects: map<ObjectId, Object>, o: ObjectId, uses: nat): map<ObjectId, Object>
    requires o in objects
  {
    objects[o := objects[o].(uses := uses)]
  }

  // Copying a shared owner of o, when there is one to copy.
  function Shared(w: World, o: Option<ObjectId>): map<ObjectId, Object> {
    if o.Some? && o.value in w.objects then WithUses(w.objects, o.value, w.objects[o.value].uses + 1) else w.objects
  }

  function Allocated(w: World, t: Token, kind: Kind, addr: Handle, leased: Option<Token>): World {
    var pin := if leased.Some? && leased.value in w.held then Some(w.held[leased.value]) else None;
    World(Shared(w, pin)[w.nextId := Object(kind, addr, 1, pin)], w.nextId + 1, w.registries, w.held[t := w.nextId])
  }

  function RegisteredWorld(w: World, o: ObjectId): World
    requires o in w.objects
  {
    var obj := w.objects[o];
    var r := Reg(w, obj.kind);
    if Registrable(r, obj.addr) then
      w.(objects := Shared(w, Some(o)), registries := w.registries[obj.kind := Registered(r, obj.addr, Some(o))])
    else w
  }

  function Acquired(w: World, t: Token, kind: Kind, h: Handle): World {
    var lease := LeaseOf(Reg(w, kind), h);
    if lease.owner.Some? then w.(objects := Shared(w, lease.owner), held := w.held[t := lease.owner.value]) else w
  }

  // The entry leaves the registry and its owner, if any, moves to the releasing thread.
  function ReleasedWorld(w: World, t: Token, kind: Kind, h: Handle): World {
    var lease := LeaseOf(Reg(w, kind), h);
    var w1 := w.(registries := w.registries[kind := Released(Reg(w, kind), h)]);
    if lease.owner.Some? then w1.(held := w.held[t := lease.owner.value]) else w1
  }

  // Dropping an owner. The last one destroys the object, and the destructor of a capture then
  // holds the capture's lease on its session until it drops that in turn.
  function Dropped(w: World, t: Token): World
    requires t in w.held && w.held[t] in w.objects
  {
    var o := w.held[t];
    var obj := w.objects[o];
    if obj.uses > 1 then w.(objects := WithUses(w.objects, o, obj.uses - 1), held := w.held - {t})
    else w.(objects := w.objects - {o}, held := if obj.pin.Some? then w.held[t := obj.pin.value] else w.held - {t})
  }

  function Apply(w: World, s: Step): World {
    if !Enabled(w, s) then w
    else
      match s
      case Allocate(t, kind, addr, leased) => Allocated(w, t, kind, addr, leased)
      case Register(t) => RegisteredWorld(w, w.held[t])
      case RegisterFeature(h) => w.(registries := w.registries[FeatureKind := Registered(Reg(w, FeatureKind), h, None)])
      case Acquire(t, kind, h) => Acquired(w, t, kind, h)
      case Release(t, kind, h) => ReleasedWorld(w, t, kind, h)
      case Drop(t) => Dropped(w, t)
  }

  function Run(w: World, steps: seq<Step>): World {
    if steps == [] then w else Apply(Run(w, steps[..|steps| - 1]), steps[|steps| - 1])
  }

  // ----- Who keeps an object alive -----

  ghost function TokensOf(held: map<Token, ObjectId>, o: ObjectId): set<Token> {
    set t | t in held && held[t] == o
  }

  ghost function PinnersOf(objects: map<ObjectId, Object>, o: ObjectId): set<ObjectId> {
    set p | p in objects && objects[p].pin == Some(o)
  }

  // The entry under the object's own handle holds the object.
  ghost predicate InRegistry(w: World, o: ObjectId)
    requires o in w.objects
  {
    var live := Reg(w, w.objects[o].kind).live;
    w.objects[o].addr in live && live[w.objects[o].addr] == Some(o)
  }

  ghost function Holders(w: World, o: ObjectId): nat
    requires o in w.objects
  {
    |TokensOf(w.held, o)| + |PinnersOf(w.objects, o)| + if InRegistry(w, o) then 1 else 0
  }

  // ----- The invariant -----

  ghost predicate ReferencesAreLive(w: World) {
    && (forall t :: t in w.held ==> w.held[t] in w.objects)
    && (forall o :: o in w.objects ==> (w.objects[o].kind == CaptureKind <==> w.objects[o].pin.Some?))
    && (forall o :: o in w.objects && w.objects[o].pin.Some? ==>
          w.objects[o].pin.value in w.objects && w.objects[w.objects[o].pin.value].kind == SessionKind)
  }

  ghost predicate EntryIsSound(w: World, k: Kind, h: Handle)
    requires h in Reg(w, k).live
  {
    var owner := Reg(w, k).live[h];
    && h != 0
    && (if k == FeatureKind then owner.None?
        else owner.Some? && owner.value in w.objects && w.objects[owner.value].addr == h && w.objects[owner.value].kind == k)
  }

  ghost predicate EntriesAreSound(w: World) {
    forall k: Kind, h :: h in Reg(w, k).live ==> EntryIsSound(w, k, h)
  }

  ghost predicate AddressesAreUnique(w: World) {
    && (forall o :: o in w.objects ==> o < w.nextId && w.objects[o].addr != 0 && w.objects[o].kind != FeatureKind)
    && (forall o, p :: o in w.objects && p in w.objects && w.objects[o].addr == w.objects[p].addr ==> o == p)
  }

  // The parts of the invariant that do not count holders.
  ghost predicate Sound(w: World) {
    ReferencesAreLive(w) && EntriesAreSound(w) && AddressesAreUnique(w)
  }

  ghost predicate CountsAreExact(w: World) {
    forall o :: o in w.objects ==> w.objects[o].uses == Holders(w, o) >= 1
  }

  ghost predicate RegistriesBalance(w: World) {
    forall k: Kind :: Balanced(Reg(w, k))
  }

  ghost predicate Inv(w: World) {
    Sound(w) && CountsAreExact(w) && RegistriesBalance(w)
  }

  // ----- Counting holders -----

  lemma OneMoreToken(held: map<Token, ObjectId>, t: Token, o: ObjectId, p: ObjectId)
    requires t !in held
    ensures |TokensOf(held[t := o], p)| == |TokensOf(held, p)| + if p == o then 1 else 0
  {
    assert TokensOf(held[t := o], p) == TokensOf(held, p) + if p == o then {t} else {};
  }

  lemma OneTokenLess(held: map<Token, ObjectId>, t: Token, p: ObjectId)
    requires t in held
    ensures |TokensOf(held - {t}, p)| == |TokensOf(held, p)| - if p == held[t] then 1 else 0
  {
    assert TokensOf(held, p) == TokensOf(held - {t}, p) + if p == held[t] then {t} else {};
  }

  lemma SamePins(objects: map<ObjectId, Object>, o: ObjectId, uses: nat, p: ObjectId)
    requires o in objects
    ensures PinnersOf(WithUses(objects, o, uses), p) == PinnersOf(objects, p)
  {
  }

  lemma OneMoreObject(objects: map<ObjectId, Object>, n: ObjectId, obj: Object, p: ObjectId)
    requires n !in objects
    ensures |PinnersOf(objects[n := obj], p)| == |PinnersOf(objects, p)| + if obj.pin == Some(p) then 1 else 0
  {
    assert PinnersOf(objects[n := obj], p) == PinnersOf(objects, p) + if obj.pin == Some(p) then {n} else {};
  }

  lemma OneObjectLess(objects: map<ObjectId, Object>, n: ObjectId, p: ObjectId)
    requires n in objects
    ensures |PinnersOf(objects - {n}, p)| == |PinnersOf(objects, p)| - if objects[n].pin == Some(p) then 1 else 0
  {
    assert PinnersOf(objects, p) == PinnersOf(objects - {n}, p) + if objects[n].pin == Some(p) then {n} else {};
  }

  // ----- Every step keeps the invariant -----

  // Only use counts differ.
  ghost predicate SameObjects(a: map<ObjectId, Object>, b: map<ObjectId, Object>) {
    && a.Keys == b.Keys
    && forall o :: o in a ==> a[o].(uses := b[o].uses) == b[o]
  }

  lemma SharedIsSame(w: World, o: Option<ObjectId>)
    ensures SameObjects(w.objects, Shared(w, o))
  {
  }

  // New registries whose entries are sound keep a world sound; so does holding live objects.
  lemma SameObjectsKeepSound(w: World, w': World)
    requires Sound(w) && SameObjects(w.objects, w'.objects) && w'.nextId == w.nextId
    requires forall t :: t in w'.held ==> w'.held[t] in w.objects
    requires forall k: Kind, h :: h in Reg(w', k).live ==>
      if h in Reg(w, k).live && Reg(w', k).live[h] == Reg(w, k).live[h] then true else EntryIsSound(w', k, h)
    ensures Sound(w')
  {
    forall k: Kind, h | h in Reg(w', k).live ensures EntryIsSound(w', k, h) {
      if h in Reg(w, k).live && Reg(w', k).live[h] == Reg(w, k).live[h] {
        assert EntryIsSound(w, k, h);
      }
    }
  }

  lemma AllocateKeepsSound(w: World, t: Token, kind: Kind, addr: Handle, leased: Option<Token>)
    requires Sound(w) && Enabled(w, Allocate(t, kind, addr, leased))
    ensures Sound(Allocated(w, t, kind, addr, leased))
  {
    var w' := Allocated(w, t, kind, addr, leased);
    SharedIsSame(w, w'.objects[w.nextId].pin);
    forall k: Kind, h | h in Reg(w', k).live ensures EntryIsSound(w', k, h) {
      assert EntryIsSound(w, k, h);
    }
  }

  lemma RegisterKeepsSound(w: World, o: ObjectId)
    requires Sound(w) && o in w.objects
    ensures Sound(RegisteredWorld(w, o))
  {
    var w' := RegisteredWorld(w, o);
    var obj := w.objects[o];
    SharedIsSame(w, Some(o));
    if Registrable(Reg(w, obj.kind), obj.addr) {
      SameObjectsKeepSound(w, w');
    }
  }

  lemma FeatureKeepsSound(w: World, h: Handle)
    requires Sound(w)
    ensures Sound(Apply(w, RegisterFeature(h)))
  {
    var w' := Apply(w, RegisterFeature(h));
    SameObjectsKeepSound(w, w');
  }

  lemma AcquireKeepsSound(w: World, t: Token, kind: Kind, h: Handle)
    requires Sound(w)
    ensures Sound(Acquired(w, t, kind, h))
  {
    var w' := Acquired(w, t, kind, h);
    var lease := LeaseOf(Reg(w, kind), h);
    if lease.owner.Some? {
      assert EntryIsSound(w, kind, h);
      SharedIsSame(w, lease.owner);
      SameObjectsKeepSound(w, w');
    }
  }

  lemma ReleaseKeepsSound(w: World, t: Token, kind: Kind, h: Handle)
    requires Sound(w)
    ensures Sound(ReleasedWorld(w, t, kind, h))
  {
    var w' := ReleasedWorld(w, t, kind, h);
    if LeaseOf(Reg(w, kind), h).acquired {
      assert EntryIsSound(w, kind, h);
    }
    SameObjectsKeepSound(w, w');
  }

  // With a use count of one, the thread's token is all that keeps the object.
  lemma LastHolder(w: World, t: Token)
    requires CountsAreExact(w) && t in w.held && w.held[t] in w.objects && w.objects[w.held[t]].uses == 1
    ensures TokensOf(w.held, w.held[t]) == {t}
    ensures PinnersOf(w.objects, w.held[t]) == {} && !InRegistry(w, w.held[t])
  {
    var o := w.held[t];
    assert t in TokensOf(w.held, o);
    assert |TokensOf(w.held, o)| == |TokensOf(w.held, o) - {t}| + 1;
    assert w.objects[o].uses == Holders(w, o);
  }

  lemma LastDropKeepsSound(w: World, t: Token)
    requires Sound(w) && t in w.held && w.objects[w.held[t]].uses <= 1
    requires TokensOf(w.held, w.held[t]) == {t}
    requires PinnersOf(w.objects, w.held[t]) == {} && !InRegistry(w, w.held[t])
    ensures Sound(Dropped(w, t))
  {
    var w', o := Dropped(w, t), w.held[t];
    assert forall p :: p in w.held && w.held[p] == o ==> p in TokensOf(w.held, o);
    assert forall p :: p in w.objects && w.objects[p].pin == Some(o) ==> p in PinnersOf(w.objects, o);
    hide TokensOf, PinnersOf;
    forall k: Kind, h | h in Reg(w', k).live ensures EntryIsSound(w', k, h) {
      assert EntryIsSound(w, k, h);
    }
  }

  lemma DropKeepsSound(w: World, t: Token)
    requires Sound(w) && CountsAreExact(w) && t in w.held
    ensures Sound(Dropped(w, t))
  {
    hide CountsAreExact, InRegistry, TokensOf, PinnersOf;
    if w.objects[w.held[t]].uses > 1 {
      SameObjectsKeepSound(w, Dropped(w, t));
    } else {
      HeldIsCounted(w, t);
      LastHolder(w, t);
      LastDropKeepsSound(w, t);
    }
  }

  lemma HeldIsCounted(w: World, t: Token)
    requires CountsAreExact(w) && t in w.held && w.held[t] in w.objects
    ensures w.objects[w.held[t]].uses >= 1
  {
  }

  // ----- Every step keeps the counts -----

  lemma NewObjectIsCounted(w: World, t: Token, kind: Kind, addr: Handle, leased: Option<Token>)
    requires Sound(w) && Enabled(w, Allocate(t, kind, addr, leased))
    ensures var w' := Allocated(w, t, kind, addr, leased); Holders(w', w.nextId) == 1
  {
    var w', n := Allocated(w, t, kind, addr, leased), w.nextId;
    OneMoreToken(w.held, t, n, n);
    assert TokensOf(w.held, n) == {};
    assert PinnersOf(w'.objects, n) == {};
    assert InRegistry(w', n) ==> EntryIsSound(w, kind, addr);
  }

  lemma AllocateKeepsCounts(w: World, t: Token, kind: Kind, addr: Handle, leased: Option<Token>, o: ObjectId)
    requires AddressesAreUnique(w) && Enabled(w, Allocate(t, kind, addr, leased))
    requires o in w.objects && w.objects[o].uses == Holders(w, o) >= 1
    ensures var w' := Allocated(w, t, kind, addr, leased);
            o in w'.objects && w'.objects[o].uses == Holders(w', o) >= 1
  {
    var w' := Allocated(w, t, kind, addr, leased);
    var n := w.nextId;
    var pin := w'.objects[n].pin;
    assert o < n && n !in w.objects;
    hide AddressesAreUnique;
    OneMoreToken(w.held, t, n, o);
    OneMoreObject(Shared(w, pin), n, w'.objects[n], o);
    if pin.Some? {
      SamePins(w.objects, pin.value, w.objects[pin.value].uses + 1, o);
    }
    hide TokensOf, PinnersOf;
    assert InRegistry(w', o) == InRegistry(w, o);
  }

  // Registration adds the entry of the registered object and touches no other.
  lemma RegisterEntersOne(w: World, o: ObjectId, p: ObjectId)
    requires AddressesAreUnique(w) && o in w.objects && p in w.objects
    requires Registrable(Reg(w, w.objects[o].kind), w.objects[o].addr)
    ensures InRegistry(RegisteredWorld(w, o), p) == (InRegistry(w, p) || p == o)
    ensures !InRegistry(w, o)
  {
    var w' := RegisteredWorld(w, o);
    SharedIsSame(w, Some(o));
    assert w'.objects[p].addr == w.objects[p].addr && w'.objects[p].kind == w.objects[p].kind;
    assert p != o ==> w.objects[p].addr != w.objects[o].addr;
    hide AddressesAreUnique, Shared;
    var k, h := w.objects[p].kind, w.objects[p].addr;
    assert p != o ==> (h in Reg(w', k).live <==> h in Reg(w, k).live);
  }

  lemma EntryIsCounted(w: World, w': World, o: ObjectId, p: ObjectId)
    requires o in w.objects && p in w.objects && w.objects[p].uses == Holders(w, p) >= 1
    requires w'.held == w.held && w'.objects == WithUses(w.objects, o, w.objects[o].uses + 1)
    requires InRegistry(w', p) == (InRegistry(w, p) || p == o) && !InRegistry(w, o)
    ensures w'.objects[p].uses == Holders(w', p) >= 1
  {
    SamePins(w.objects, o, w.objects[o].uses + 1, p);
    hide InRegistry, PinnersOf, TokensOf;
  }

  lemma RegisterKeepsCounts(w: World, o: ObjectId, p: ObjectId)
    requires AddressesAreUnique(w) && o in w.objects && p in w.objects && w.objects[p].uses == Holders(w, p) >= 1
    ensures var w' := RegisteredWorld(w, o);
            p in w'.objects && w'.objects[p].uses == Holders(w', p) >= 1
  {
    hide AddressesAreUnique, Holders, InRegistry, Registrable, Registered, Reg;
    if Registrable(Reg(w, w.objects[o].kind), w.objects[o].addr) {
      RegisterEntersOne(w, o, p);
      EntryIsCounted(w, RegisteredWorld(w, o), o, p);
    }
  }

  lemma FeatureKeepsCounts(w: World, h: Handle, o: ObjectId)
    requires Sound(w) && CountsAreExact(w) && o in w.objects
    ensures var w' := Apply(w, RegisterFeature(h)); w'.objects[o].uses == Holders(w', o) >= 1
  {
    assert w.objects[o].uses == Holders(w, o) >= 1;
    assert InRegistry(Apply(w, RegisterFeature(h)), o) == InRegistry(w, o);
  }

  lemma AcquireKeepsCounts(w: World, t: Token, kind: Kind, h: Handle, p: ObjectId)
    requires EntriesAreSound(w) && t !in w.held && p in w.objects && w.objects[p].uses == Holders(w, p) >= 1
    ensures var w' := Acquired(w, t, kind, h); w'.objects[p].uses == Holders(w', p) >= 1
  {
    var lease := LeaseOf(Reg(w, kind), h);
    if lease.owner.Some? {
      var o := lease.owner.value;
      assert EntryIsSound(w, kind, h);
      hide EntriesAreSound;
      OneMoreToken(w.held, t, o, p);
      SamePins(w.objects, o, w.objects[o].uses + 1, p);
      hide TokensOf, PinnersOf;
      assert InRegistry(Acquired(w, t, kind, h), p) == InRegistry(w, p);
    }
  }

  lemma ReleaseKeepsCounts(w: World, t: Token, kind: Kind, h: Handle, p: ObjectId)
    requires Sound(w) && CountsAreExact(w) && t !in w.held && p in w.objects
    ensures var w' := ReleasedWorld(w, t, kind, h); w'.objects[p].uses == Holders(w', p) >= 1
  {
    hide ReferencesAreLive, AddressesAreUnique;
    var w' := ReleasedWorld(w, t, kind, h);
    var lease := LeaseOf(Reg(w, kind), h);
    assert w.objects[p].uses == Holders(w, p) >= 1;
    if lease.acquired {
      assert EntryIsSound(w, kind, h);
      if lease.owner.Some? {
        OneMoreToken(w.held, t, lease.owner.value, p);
      }
    }
    assert InRegistry(w', p) == (InRegistry(w, p) && lease.owner != Some(p));
  }

  lemma SharedDropKeepsCounts(w: World, t: Token, p: ObjectId)
    requires Sound(w) && CountsAreExact(w) && t in w.held && p in w.objects && w.objects[w.held[t]].uses > 1
    ensures var w' := Dropped(w, t); w'.objects[p].uses == Holders(w', p) >= 1
  {
    var o := w.held[t];
    var obj := w.objects[o];
    assert w.objects[p].uses == Holders(w, p) >= 1 && obj.uses == Holders(w, o) >= 1;
    hide Sound, CountsAreExact;
    OneTokenLess(w.held, t, p);
    SamePins(w.objects, o, obj.uses - 1, p);
    hide TokensOf, PinnersOf;
    assert InRegistry(Dropped(w, t), p) == InRegistry(w, p);
  }

  // The tokens after the last owner of an object is gone: its pin, if any, moves to the thread.
  lemma LastDropTokens(held: map<Token, ObjectId>, t: Token, pin: Option<ObjectId>, p: ObjectId)
    requires t in held
    ensures |TokensOf(if pin.Some? then held[t := pin.value] else held - {t}, p)|
            == |TokensOf(held, p)| - (if p == held[t] then 1 else 0) + if pin == Some(p) then 1 else 0
  {
    OneTokenLess(held, t, p);
    if pin.Some? {
      assert held[t := pin.value] == (held - {t})[t := pin.value];
      OneMoreToken(held - {t}, t, pin.value, p);
    }
  }

  lemma LastDropKeepsCounts(w: World, t: Token, p: ObjectId)
    requires Sound(w) && CountsAreExact(w) && t in w.held && p in w.objects && p != w.held[t]
    requires w.objects[w.held[t]].uses <= 1
    ensures var w' := Dropped(w, t); w'.objects[p].uses == Holders(w', p) >= 1
  {
    var o := w.held[t];
    assert w.objects[p].uses == Holders(w, p) >= 1;
    hide Sound, CountsAreExact;
    LastDropTokens(w.held, t, w.objects[o].pin, p);
    OneObjectLess(w.objects, o, p);
    hide TokensOf, PinnersOf;
    assert InRegistry(Dropped(w, t), p) == InRegistry(w, p);
  }

  lemma RegisterKeepsBalance(w: World, o: ObjectId, k: Kind)
    requires Balanced(Reg(w, k)) && o in w.objects
    ensures Balanced(Reg(RegisteredWorld(w, o), k))
  {
    RegistryStaysBalanced(Reg(w, k), w.objects[o].addr, Some(o));
    hide Balanced, Registered, Shared;
  }

  lemma StepKeepsBalance(w: World, s: Step, k: Kind)
    requires Balanced(Reg(w, k))
    ensures Balanced(Reg(Apply(w, s), k))
  {
    hide Balanced, Registered, Released, RegisteredWorld, Shared;
    if Enabled(w, s) {
      match s
      case Register(t) => RegisterKeepsBalance(w, w.held[t], k);
      case RegisterFeature(h) => RegistryStaysBalanced(Reg(w, k), h, None);
      case Release(_, _, h) => RegistryStaysBalanced(Reg(w, k), h, None);
      case _ =>
    }
  }

  lemma StepKeepsSound(w: World, s: Step)
    requires Sound(w) && CountsAreExact(w)
    ensures Sound(Apply(w, s))
  {
    if Enabled(w, s) {
      match s
      case Allocate(t, kind, addr, leased) => AllocateKeepsSound(w, t, kind, addr, leased);
      case Register(t) => RegisterKeepsSound(w, w.held[t]);
      case RegisterFeature(h) => FeatureKeepsSound(w, h);
      case Acquire(t, kind, h) => AcquireKeepsSound(w, t, kind, h);
      case Release(t, kind, h) => ReleaseKeepsSound(w, t, kind, h);
      case Drop(t) => DropKeepsSound(w, t);
    }
  }

  lemma StepKeepsCount(w: World, s: Step, o: ObjectId)
    requires Sound(w) && CountsAreExact(w) && o in Apply(w, s).objects
    ensures Apply(w, s).objects[o].uses == Holders(Apply(w, s), o) >= 1
  {
    assert o in w.objects ==> w.objects[o].uses == Holders(w, o) >= 1;
    if Enabled(w, s) {
      match s
      case Allocate(t, kind, addr, leased) =>
        if o == w.nextId {
          NewObjectIsCounted(w, t, kind, addr, leased);
        } else {
          AllocateKeepsCounts(w, t, kind, addr, leased, o);
        }
      case Register(t) => RegisterKeepsCounts(w, w.held[t], o);
      case RegisterFeature(h) => FeatureKeepsCounts(w, h, o);
      case Acquire(t, kind, h) => AcquireKeepsCounts(w, t, kind, h, o);
      case Release(t, kind, h) => ReleaseKeepsCounts(w, t, kind, h, o);
      case Drop(t) =>
        if w.objects[w.held[t]].uses > 1 {
          SharedDropKeepsCounts(w, t, o);
        } else {
          LastDropKeepsCounts(w, t, o);
        }
    }
  }

  lemma StepKeepsInv(w: World, s: Step)
    requires Inv(w)
    ensures Inv(Apply(w, s))
  {
    hide Apply, Sound, Holders, Balanced, Reg;
    StepKeepsSound(w, s);
    forall k: Kind ensures Balanced(Reg(Apply(w, s), k)) {
      assert Balanced(Reg(w, k));
      StepKeepsBalance(w, s, k);
    }
    forall o | o in Apply(w, s).objects ensures Apply(w, s).objects[o].uses == Holders(Apply(w, s), o) >= 1 {
      StepKeepsCount(w, s, o);
    }
  }

  lemma {:induction false} EveryRunKeepsInv(steps: seq<Step>)
    ensures Inv(Run(NEW_WORLD, steps))
  {
    if steps != [] {
      EveryRunKeepsInv(steps[..|steps| - 1]);
      StepKeepsInv(Run(NEW_WORLD, steps[..|steps| - 1]), steps[|steps| - 1]);
    }
  }

  // ----- What the protocol promises -----

  // The references an object can be used through: a token, its registry entry, a live capture.
  ghost predicate IsHeld(w: World, o: ObjectId) {
    || (exists t :: t in w.held && w.held[t] == o)
    || (exists k: Kind, h :: h in Reg(w, k).live && Reg(w, k).live[h] == Some(o))
    || (exists c :: c in w.objects && w.objects[c].pin == Some(o))
  }

  lemma AliveIsHeld(w: World, o: ObjectId)
    requires CountsAreExact(w) && o in w.objects
    ensures IsHeld(w, o)
  {
    assert w.objects[o].uses == Holders(w, o) >= 1;
    if TokensOf(w.held, o) != {} {
      var t :| t in TokensOf(w.held, o);
    } else if PinnersOf(w.objects, o) != {} {
      var c :| c in PinnersOf(w.objects, o);
    } else {
      assert InRegistry(w, o);
    }
  }

  lemma HeldIsAlive(w: World, o: ObjectId)
    requires Sound(w) && IsHeld(w, o)
    ensures o in w.objects
  {
    if exists k: Kind, h :: h in Reg(w, k).live && Reg(w, k).live[h] == Some(o) {
      var k: Kind, h :| h in Reg(w, k).live && Reg(w, k).live[h] == Some(o);
      assert EntryIsSound(w, k, h);
    }
  }

  // Exact lifetime, at any point of any interleaving: an object is alive if and only if
  // something holds it. Nothing held is ever destroyed, and nothing outlives its last holder.
  lemma {:induction false} AliveExactlyWhileHeld(steps: seq<Step>, o: ObjectId)
    ensures var w := Run(NEW_WORLD, steps); o in w.objects <==> IsHeld(w, o)
  {
    var w := Run(NEW_WORLD, steps);
    EveryRunKeepsInv(steps);
    hide IsHeld, Sound, CountsAreExact;
    if o in w.objects {
      AliveIsHeld(w, o);
    }
    if IsHeld(w, o) {
      HeldIsAlive(w, o);
    }
  }

  // The identity of an object: everything but its use count.
  ghost predicate SameIdentity(a: Object, b: Object) {
    a.(uses := b.uses) == b
  }

  // Two threads' owners of one object keep it alive through the first drop.
  lemma OtherDropKeeps(w: World, u: Token, t: Token)
    requires ReferencesAreLive(w) && CountsAreExact(w) && t in w.held && u in w.held && u != t
    ensures t in Dropped(w, u).held && Dropped(w, u).held[t] == w.held[t]
    ensures w.held[t] in Dropped(w, u).objects
    ensures SameIdentity(w.objects[w.held[t]], Dropped(w, u).objects[w.held[t]])
  {
    HeldIsCounted(w, u);
    if w.objects[w.held[u]].uses == 1 {
      LastHolder(w, u);
      assert t in TokensOf(w.held, w.held[t]);
    }
  }

  // Only a drop takes an owner from a thread or destroys an object.
  lemma OtherStepsKeepAll(w: World, s: Step, t: Token, o: ObjectId)
    requires !s.Drop? && t in w.held && o in w.objects
    ensures t in Apply(w, s).held && Apply(w, s).held[t] == w.held[t]
    ensures o in Apply(w, s).objects
  {
    hide LeaseOf, Reg, Released, Registered, Registrable;
  }

  lemma StepKeepsLease(w: World, s: Step, t: Token)
    requires Inv(w) && t in w.held && s != Drop(t)
    ensures t in Apply(w, s).held && Apply(w, s).held[t] == w.held[t]
    ensures w.held[t] in Apply(w, s).objects && SameIdentity(w.objects[w.held[t]], Apply(w, s).objects[w.held[t]])
  {
    assert ReferencesAreLive(w) && w.held[t] in w.objects && w.held[t] < w.nextId;
    StepKeepsIdentity(w, s, w.held[t]);
    hide Sound, CountsAreExact, RegistriesBalance, SameIdentity, Dropped;
    if s.Drop? {
      if Enabled(w, s) {
        OtherDropKeeps(w, s.t, t);
      }
    } else {
      hide Apply;
      OtherStepsKeepAll(w, s, t, w.held[t]);
    }
  }

  // A lease protects its object from everything other threads do, the release of the public
  // handle included, until the thread that holds it drops it.
  lemma {:induction false} LeaseProtects(w: World, t: Token, steps: seq<Step>)
    requires Inv(w) && t in w.held && Drop(t) !in steps
    ensures var v := Run(w, steps);
            && Inv(v) && t in v.held && v.held[t] == w.held[t]
            && w.held[t] in v.objects && SameIdentity(w.objects[w.held[t]], v.objects[w.held[t]])
  {
    if steps != [] {
      var front, s := steps[..|steps| - 1], steps[|steps| - 1];
      LeaseProtects(w, t, front);
      assert s in steps;
      StepKeepsLease(Run(w, front), s, t);
      StepKeepsInv(Run(w, front), s);
    }
  }

  // Identifiers are never reused and an object never changes but for its use count.
  lemma StepKeepsIdentity(w: World, s: Step, c: ObjectId)
    requires Sound(w) && c < w.nextId
    ensures c < Apply(w, s).nextId
    ensures c in Apply(w, s).objects ==> c in w.objects && SameIdentity(w.objects[c], Apply(w, s).objects[c])
  {
    hide Sound;
    if Enabled(w, s) {
      match s
      case Register(u) => SharedIsSame(w, Some(w.held[u]));
      case Acquire(_, k, h) => SharedIsSame(w, LeaseOf(Reg(w, k), h).owner);
      case _ =>
    }
  }

  lemma PinIsLive(w: World, c: ObjectId)
    requires Sound(w) && c in w.objects && w.objects[c].kind == CaptureKind
    ensures c < w.nextId && w.objects[c].pin.Some?
    ensures w.objects[c].pin.value in w.objects && w.objects[w.objects[c].pin.value].kind == SessionKind
  {
  }

  // Creating a capture session from a lease on a live face session pins that session. Any fresh
  // address will do.
  lemma CreatedCapturePins(w: World, t: Token, addr: Handle, leased: Token)
    requires Inv(w) && t !in w.held && addr != 0 && forall o :: o in w.objects ==> w.objects[o].addr != addr
    requires leased in w.held && w.objects[w.held[leased]].kind == SessionKind
    ensures var v := Apply(w, Allocate(t, CaptureKind, addr, Some(leased)));
            && Inv(v) && t in v.held && v.held[t] == w.nextId && w.nextId in v.objects
            && v.objects[w.nextId].kind == CaptureKind && v.objects[w.nextId].addr == addr
            && v.objects[w.nextId].pin == Some(w.held[leased])
  {
    StepKeepsInv(w, Allocate(t, CaptureKind, addr, Some(leased)));
  }

  // In every reachable world every capture session pins a live face session.
  lemma {:induction false} EveryCapturePins(steps: seq<Step>, c: ObjectId)
    requires var w := Run(NEW_WORLD, steps); c in w.objects && w.objects[c].kind == CaptureKind
    ensures var w := Run(NEW_WORLD, steps);
            && w.objects[c].pin.Some? && w.objects[c].pin.value in w.objects
            && w.objects[w.objects[c].pin.value].kind == SessionKind
  {
    EveryRunKeepsInv(steps);
    hide Run, Sound, CountsAreExact, RegistriesBalance;
    PinIsLive(Run(NEW_WORLD, steps), c);
  }

  // As long as a capture session is alive, so is the face session it was created on, whatever
  // happened to the face session's own handle.
  lemma {:induction false} CapturePinsItsSession(w: World, c: ObjectId, steps: seq<Step>)
    requires Inv(w) && c in w.objects && w.objects[c].kind == CaptureKind
    ensures w.objects[c].pin.Some? && w.objects[c].pin.value in w.objects
    ensures var v, session := Run(w, steps), w.objects[c].pin.value;
            && Inv(v) && c < v.nextId && session < v.nextId
            && (c in v.objects ==>
                  && SameIdentity(w.objects[c], v.objects[c])
                  && session in v.objects && SameIdentity(w.objects[session], v.objects[session]))
  {
    hide Apply, Sound, CountsAreExact, RegistriesBalance;
    PinIsLive(w, c);
    PinnedIsKnown(w, w.objects[c].pin.value);
    if steps != [] {
      var front, s := steps[..|steps| - 1], steps[|steps| - 1];
      var u := Run(w, front);
      CapturePinsItsSession(w, c, front);
      StepKeepsInv(u, s);
      StepKeepsIdentity(u, s, c);
      StepKeepsIdentity(u, s, w.objects[c].pin.value);
      if c in Apply(u, s).objects {
        PinIsLive(Apply(u, s), c);
      }
    }
  }

  lemma PinnedIsKnown(w: World, o: ObjectId)
    requires Sound(w) && o in w.objects
    ensures o < w.nextId
  {
  }

  // A live handle can always be acquired: the lease is on the very object the handle stands for.
  lemma AcquireLeases(w: World, t: Token, k: Kind, h: Handle)
    requires Inv(w) && t !in w.held && k != FeatureKind && h in Reg(w, k).live
    ensures var v := Apply(w, Acquire(t, k, h));
            && t in v.held && v.held[t] in w.objects && v.held[t] in v.objects
            && v.objects[v.held[t]].addr == h && v.objects[v.held[t]].kind == k
            && v.objects[v.held[t]].uses == w.objects[v.held[t]].uses + 1
            && v.registries == w.registries
  {
    var o := EntryOwner(w, k, h);
    AcquiredLease(w, t, k, h, o);
    hide Inv, Reg, LeaseOf, Apply;
  }

  lemma AcquiredLease(w: World, t: Token, k: Kind, h: Handle, o: ObjectId)
    requires t !in w.held && k != FeatureKind && o in w.objects && LeaseOf(Reg(w, k), h) == Lease(true, Some(o))
    ensures Apply(w, Acquire(t, k, h))
         == w.(objects := w.objects[o := w.objects[o].(uses := w.objects[o].uses + 1)], held := w.held[t := o])
  {
    hide LeaseOf, Reg;
  }

  lemma EntryOwner(w: World, k: Kind, h: Handle) returns (o: ObjectId)
    requires Inv(w) && k != FeatureKind && h in Reg(w, k).live
    ensures LeaseOf(Reg(w, k), h) == Lease(true, Some(o))
    ensures o in w.objects && w.objects[o].addr == h && w.objects[o].kind == k
  {
    assert EntryIsSound(w, k, h);
    o := Reg(w, k).live[h].value;
  }

  lemma ReleasedEntry(r: Registry, h: Handle)
    ensures !LeaseOf(Released(r, h), h).acquired
  {
  }

  // Releasing a live handle takes its entry out at once and hands the entry's owner to the
  // releasing thread, which destroys nothing.
  lemma ReleaseHandsOut(w: World, t: Token, k: Kind, h: Handle)
    requires Inv(w) && t !in w.held && k != FeatureKind && h in Reg(w, k).live
    ensures var v := Apply(w, Release(t, k, h));
            && !LeaseOf(Reg(v, k), h).acquired && v.objects == w.objects
            && t in v.held && v.held[t] in w.objects && w.objects[v.held[t]].addr == h && w.objects[v.held[t]].kind == k
  {
    var o := EntryOwner(w, k, h);
    HandedOut(w, t, k, h, o);
    ReleasedEntry(Reg(w, k), h);
    hide Inv, LeaseOf, Released, Apply;
  }

  lemma HandedOut(w: World, t: Token, k: Kind, h: Handle, o: ObjectId)
    requires t !in w.held && LeaseOf(Reg(w, k), h) == Lease(true, Some(o))
    ensures Apply(w, Release(t, k, h))
         == w.(registries := w.registries[k := Released(Reg(w, k), h)], held := w.held[t := o])
  {
    hide LeaseOf, Released;
  }

  // Whoever holds an object whose handle is not live can register it, however many others hold it;
  // the entry is then a further holder.
  lemma RegistrationEnters(w: World, t: Token, o: ObjectId)
    requires t in w.held && w.held[t] == o && o in w.objects
    requires w.objects[o].addr != 0 && w.objects[o].addr !in Reg(w, w.objects[o].kind).live
    ensures var v := Apply(w, Register(t));
            && v.objects == w.objects[o := w.objects[o].(uses := w.objects[o].uses + 1)] && InRegistry(v, o)
            && v.held == w.held && v.nextId == w.nextId
  {
    assert Registrable(Reg(w, w.objects[o].kind), w.objects[o].addr);
  }

  // Dropping an owner changes that object and that token alone. Unless it was the last holder, the
  // object just has a holder less; else it is destroyed, and a capture passes its own lease on its
  // session to the dropping thread.
  lemma DropEnds(w: World, t: Token)
    requires Inv(w) && t in w.held
    ensures w.held[t] in w.objects
    ensures var v, o, obj := Apply(w, Drop(t)), w.held[t], w.objects[w.held[t]];
            && v.registries == w.registries && v.nextId == w.nextId
            && (if Holders(w, o) > 1 then v.objects == w.objects[o := obj.(uses := obj.uses - 1)] && v.held == w.held - {t}
                else
                  && v.objects == w.objects - {o}
                  && v.held == if obj.pin.Some? then w.held[t := obj.pin.value] else w.held - {t})
  {
    CountOfHeld(w, t);
    DroppedByCount(w, t);
    hide Inv, Holders, Apply;
  }

  lemma CountOfHeld(w: World, t: Token)
    requires Inv(w) && t in w.held
    ensures w.held[t] in w.objects && w.objects[w.held[t]].uses == Holders(w, w.held[t])
  {
    hide Holders;
  }

  lemma DroppedByCount(w: World, t: Token)
    requires t in w.held && w.held[t] in w.objects
    ensures var v, o, obj := Apply(w, Drop(t)), w.held[t], w.objects[w.held[t]];
            && v.registries == w.registries && v.nextId == w.nextId
            && (if obj.uses > 1 then v.objects == w.objects[o := obj.(uses := obj.uses - 1)] && v.held == w.held - {t}
                else
                  && v.objects == w.objects - {o}
                  && v.held == if obj.pin.Some? then w.held[t := obj.pin.value] else w.held - {t})
  {
  }

  // Any other object can be created under any fresh address, and its creator then holds it.
  lemma AllocationCreates(w: World, t: Token, kind: Kind, addr: Handle)
    requires Inv(w) && t !in w.held && addr != 0 && forall o :: o in w.objects ==> w.objects[o].addr != addr
    requires kind != CaptureKind && kind != FeatureKind
    ensures var v := Apply(w, Allocate(t, kind, addr, None));
            && w.nextId !in w.objects && v.objects == w.objects[w.nextId := Object(kind, addr, 1, None)]
            && v.held == w.held[t := w.nextId] && v.nextId == w.nextId + 1 && v.registries == w.registries
  {
    NextIsNew(w);
    hide Inv;
  }

  lemma NextIsNew(w: World)
    requires Inv(w)
    ensures w.nextId !in w.objects
  {
  }

  // A face feature can be registered under any handle that is not live, and then is.
  lemma FeatureRegisters(w: World, h: Handle)
    requires h != 0 && h !in Reg(w, FeatureKind).live
    ensures var v := Apply(w, RegisterFeature(h));
            && LeaseOf(Reg(v, FeatureKind), h) == Lease(true, None) && v.objects == w.objects && v.held == w.held
  {
  }

  // Whether a step enters handle h into registry k.
  predicate Enters(w: World, s: Step, k: Kind, h: Handle) {
    match s
    case Register(t) => Enabled(w, s) && w.objects[w.held[t]].kind == k && w.objects[w.held[t]].addr == h
    case RegisterFeature(g) => k == FeatureKind && g == h
    case _ => false
  }

  ghost predicate NeverEnters(w: World, steps: seq<Step>, k: Kind, h: Handle) {
    forall i :: 0 <= i < |steps| ==> !Enters(Run(w, steps[..i]), steps[i], k, h)
  }

  // From the release of a handle until it is registered again it is not live, so every attempt
  // to acquire it comes back without a lease.
  lemma {:induction false} ReleasedHandleCannotBeAcquired(w: World, t: Token, k: Kind, h: Handle, steps: seq<Step>,
                                                          reader: Token)
    requires t !in w.held
    requires NeverEnters(Apply(w, Release(t, k, h)), steps, k, h)
    ensures var v := Run(Apply(w, Release(t, k, h)), steps);
            !LeaseOf(Reg(v, k), h).acquired && Apply(v, Acquire(reader, k, h)) == v
  {
    var w1 := Apply(w, Release(t, k, h));
    if steps != [] {
      var front, s := steps[..|steps| - 1], steps[|steps| - 1];
      assert forall i :: 0 <= i < |front| ==> front[..i] == steps[..i];
      ReleasedHandleCannotBeAcquired(w, t, k, h, front, reader);
      assert !Enters(Run(w1, front), s, k, h);
      NotEnteredIsNotLive(Run(w1, front), s, k, h);
    }
  }

  lemma NotEnteredIsNotLive(w: World, s: Step, k: Kind, h: Handle)
    requires !LeaseOf(Reg(w, k), h).acquired && !Enters(w, s, k, h)
    ensures !LeaseOf(Reg(Apply(w, s), k), h).acquired
  {
  }

  lemma RegistrableUnlessEntered(w: World, t: Token)
    requires Inv(w) && t in w.held && w.held[t] in w.objects
    ensures var obj := w.objects[w.held[t]]; Registrable(Reg(w, obj.kind), obj.addr) <==> !InRegistry(w, w.held[t])
  {
    var obj := w.objects[w.held[t]];
    if obj.addr in Reg(w, obj.kind).live {
      assert EntryIsSound(w, obj.kind, obj.addr);
    }
  }

  // Registration of an object never collides with another object's entry: it fails only if the
  // object already is what its handle stands for.
  lemma {:induction false} RegistrationNeverCollides(steps: seq<Step>, t: Token)
    requires var w := Run(NEW_WORLD, steps); t in w.held && w.held[t] in w.objects
    ensures var w := Run(NEW_WORLD, steps);
            var obj := w.objects[w.held[t]];
            Registrable(Reg(w, obj.kind), obj.addr) <==> !InRegistry(w, w.held[t])
  {
    EveryRunKeepsInv(steps);
    hide Run;
    RegistrableUnlessEntered(Run(NEW_WORLD, steps), t);
  }

  // Whether a step is one of the thread that holds token t, or uses its owner.
  predicate Involves(s: Step, t: Token) {
    match s
    case Allocate(u, _, _, leased) => u == t || leased == Some(t)
    case Register(u) => u == t
    case RegisterFeature(_) => false
    case Acquire(u, _, _) => u == t
    case Release(u, _, _) => u == t
    case Drop(u) => u == t
  }

  // Token t is the only thing that keeps its object.
  ghost predicate Unshared(w: World, t: Token) {
    && t in w.held && w.held[t] in w.objects
    && (forall u :: u in w.held && u != t ==> w.held[u] != w.held[t])
    && !InRegistry(w, w.held[t])
  }

  lemma OneUseIsUnshared(w: World, t: Token)
    requires CountsAreExact(w) && t in w.held && w.held[t] in w.objects && w.objects[w.held[t]].uses == 1
    ensures Unshared(w, t)
  {
    LastHolder(w, t);
    assert forall u :: u in w.held && w.held[u] == w.held[t] ==> u in TokensOf(w.held, w.held[t]);
  }

  lemma UnsharedIsNotAcquired(w: World, t: Token, k: Kind, h: Handle)
    requires EntriesAreSound(w) && Unshared(w, t)
    ensures LeaseOf(Reg(w, k), h).owner != Some(w.held[t])
  {
    if LeaseOf(Reg(w, k), h).acquired {
      assert EntryIsSound(w, k, h);
    }
  }

  // Other threads cannot reach an unshared object.
  lemma OthersKeepUses(w: World, s: Step, t: Token)
    requires AddressesAreUnique(w) && EntriesAreSound(w) && Unshared(w, t) && !Involves(s, t)
    requires w.held[t] in Apply(w, s).objects
    ensures Apply(w, s).objects[w.held[t]].uses == w.objects[w.held[t]].uses
  {
    assert w.held[t] < w.nextId;
    if s.Acquire? {
      UnsharedIsNotAcquired(w, t, s.kind, s.h);
    }
    hide AddressesAreUnique, EntriesAreSound, InRegistry, Reg, LeaseOf, Registered, Registrable, Released;
  }

  lemma StepKeepsUnshared(w: World, s: Step, t: Token)
    requires Inv(w) && t in w.held && w.held[t] in w.objects && w.objects[w.held[t]].uses == 1 && !Involves(s, t)
    ensures var v := Apply(w, s);
            && Inv(v) && t in v.held && v.held[t] == w.held[t] && w.held[t] in v.objects
            && v.objects[w.held[t]].uses == 1 && SameIdentity(w.objects[w.held[t]], v.objects[w.held[t]])
  {
    hide Apply, Sound, CountsAreExact, RegistriesBalance;
    StepKeepsInv(w, s);
    StepKeepsLease(w, s, t);
    OneUseIsUnshared(w, t);
    assert EntriesAreSound(w) && AddressesAreUnique(w) by {
      SoundMeans(w);
    }
    OthersKeepUses(w, s, t);
  }

  lemma SoundMeans(w: World)
    requires Sound(w)
    ensures EntriesAreSound(w) && AddressesAreUnique(w)
  {
  }

  ghost predicate LeavesAlone(steps: seq<Step>, t: Token) {
    forall s :: s in steps ==> !Involves(s, t)
  }

  lemma {:induction false} RunKeepsUnshared(w: World, steps: seq<Step>, t: Token)
    requires Inv(w) && t in w.held && w.held[t] in w.objects && w.objects[w.held[t]].uses == 1 && LeavesAlone(steps, t)
    ensures var v := Run(w, steps);
            && Inv(v) && t in v.held && v.held[t] == w.held[t] && w.held[t] in v.objects
            && v.objects[w.held[t]].uses == 1 && SameIdentity(w.objects[w.held[t]], v.objects[w.held[t]])
  {
    hide Apply, Inv, Involves;
    if steps != [] {
      assert steps[|steps| - 1] in steps;
      RunKeepsUnshared(w, steps[..|steps| - 1], t);
      StepKeepsUnshared(Run(w, steps[..|steps| - 1]), steps[|steps| - 1], t);
    }
  }

  lemma AllocatedIsUnshared(w: World, t: Token, kind: Kind, addr: Handle, leased: Option<Token>)
    requires Inv(w) && Enabled(w, Allocate(t, kind, addr, leased))
    ensures var v := Apply(w, Allocate(t, kind, addr, leased));
            && Inv(v) && t in v.held && v.held[t] == w.nextId && w.nextId in v.objects
            && v.objects[w.nextId].uses == 1 && v.objects[w.nextId].kind == kind && v.objects[w.nextId].addr == addr
  {
    StepKeepsInv(w, Allocate(t, kind, addr, leased));
    hide Inv;
  }

  lemma UnsharedRegisters(w: World, t: Token)
    requires Inv(w) && t in w.held && w.held[t] in w.objects && w.objects[w.held[t]].uses == 1
    ensures var o, obj := w.held[t], w.objects[w.held[t]];
            var v := Apply(w, Register(t));
            && Registrable(Reg(w, obj.kind), obj.addr)
            && o in v.objects && InRegistry(v, o)
            && Reg(v, obj.kind).created == Reg(w, obj.kind).created + 1
  {
    OneUseIsUnshared(w, t);
    RegistrableUnlessEntered(w, t);
    hide Inv, Unshared;
  }

  // What creating a handle relies on: whatever other threads do between the allocation of an
  // object and its registration, the registration succeeds.
  lemma {:induction false} CreationSucceeds(
      w: World, t: Token, kind: Kind, addr: Handle, leased: Option<Token>, between: seq<Step>)
    requires Inv(w) && Enabled(w, Allocate(t, kind, addr, leased)) && LeavesAlone(between, t)
    ensures var u := Run(Apply(w, Allocate(t, kind, addr, leased)), between);
            var v := Apply(u, Register(t));
            && Registrable(Reg(u, kind), addr)
            && w.nextId in v.objects && InRegistry(v, w.nextId)
            && Reg(v, kind).created == Reg(u, kind).created + 1
  {
    hide Apply, Inv, InRegistry, Registrable, Reg, LeavesAlone, Enabled;
    AllocatedIsUnshared(w, t, kind, addr, leased);
    RunKeepsUnshared(Apply(w, Allocate(t, kind, addr, leased)), between, t);
    UnsharedRegisters(Run(Apply(w, Allocate(t, kind, addr, leased)), between), t);
  }

  // In every registry, what was created is what was released plus what is live.
  lemma {:induction false} CountersBalance(steps: seq<Step>, k: Kind)
    ensures var r := Reg(Run(NEW_WORLD, steps), k); r.created == r.released + |r.live|
  {
    EveryRunKeepsInv(steps);
    assert Balanced(Reg(Run(NEW_WORLD, steps), k));
  }

  lemma UnheldIsPinned(w: World, o: ObjectId)
    requires Inv(w) && o in w.objects && w.held == map[] && forall k: Kind :: Reg(w, k).live == map[]
    ensures w.objects[o].kind == SessionKind && exists c :: c in w.objects && w.objects[c].pin == Some(o)
  {
    AliveIsHeld(w, o);
  }

  // No leaks: once every handle is released and every thread has dropped its owners, nothing is
  // alive. Pins alone keep nothing, since only captures pin and only face sessions are pinned.
  lemma {:induction false} NothingLeaks(steps: seq<Step>)
    requires var w := Run(NEW_WORLD, steps); w.held == map[] && forall k: Kind :: Reg(w, k).live == map[]
    ensures Run(NEW_WORLD, steps).objects == map[]
  {
    var w := Run(NEW_WORLD, steps);
    EveryRunKeepsInv(steps);
    forall o ensures o !in w.objects {
      if o in w.objects {
        UnheldIsPinned(w, o);
        var c :| c in w.objects && w.objects[c].pin == Some(o);
        UnheldIsPinned(w, c);
        assert false;
      }
    }
    assert w.objects.Keys == {};
  }
}
