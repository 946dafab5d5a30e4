// The `ContainerManager` object as one thread at a time sees it: the fields of container_manager.py
// and its operations from start to end. Each operation is stated in terms of the lock sections that
// the protocol in SandboxPool interleaves.
module ContainerManagerObject {
  import opened Prelude
  import opened SandboxPool

  /** How the Docker calls of one `_create_container` go. */
  datatype CreateFate =
    | Works
    | Refused                        // no usable client or image
    | CreateFails(recovered: bool)   // `create` or the mount check fails; found by name and removed, or not
    | StartFails(removed: bool)      // start or the cgroup check fails; then removed, or not

  datatype Created = Made(c: Cid) | Raised(capacity: bool)

  /** What a raising create leaves behind: a permit and an entry only for what may still exist. */
  function AfterRaise(m: Manager, name: Cid, fate: CreateFate, capacity: bool): Manager {
    if capacity || m.shuttingDown then m
    else match fate
         case CreateFails(false) => m.PermitTaken().AddPending(name)
         case StartFails(false) => m.PermitTaken().Promoted(name)
         case _ => m
  }

  predicate Distinct(names: seq<Cid>) { forall i, j :: 0 <= i < j < |names| ==> names[i] != names[j] }

  /** Exactly the first `made` names are pooled and on the books. */
  predicate Filled(m: Manager, names: seq<Cid>, made: nat) {
    && made <= |names| && m.pool == names[..made] && m.pending == {} && |m.managed| == made
    && forall c :: c in m.managed ==> c in names[..made]
  }

  lemma FilledNext(m: Manager, names: seq<Cid>, made: nat)
    requires Distinct(names) && made < |names| && Filled(m, names, made)
    ensures names[made] !in m.managed && names[made] !in m.pending
    ensures Filled(m.PermitTaken().Promoted(names[made]).AddPooled(names[made]), names, made + 1)
  {
    var name, m' := names[made], m.PermitTaken().Promoted(names[made]).AddPooled(names[made]);
    assert name !in names[..made];
    assert names[..made + 1] == names[..made] + [name];
    assert m'.managed == m.managed + {name} && m'.pending == {};
  }

  class ContainerManager {
    const size: nat
    var pool: seq<Cid>
    var managed: set<Cid>
    var pending: set<Cid>
    var shuttingDown: bool
    var initialized: bool
    var degraded: bool
    var permits: nat

    ghost function Model(): Manager
      reads this
    {
      Manager(pool, managed, pending, shuttingDown, initialized, degraded, permits)
    }

    /** What holds whenever no operation is under way. */
    ghost predicate Valid()
      reads this
    {
      && managed !! pending
      && permits == |managed| + |pending| <= size
      && (forall i, j :: 0 <= i < j < |pool| ==> pool[i] != pool[j])
      && (forall c :: c in pool ==> c in managed)
      && (shuttingDown ==> pool == [])
    }

    constructor (size: nat)
      requires size >= 1
      ensures Valid() && this.size == size
      ensures Model() == Manager([], {}, {}, false, false, false, 0)
    {
      this.size := size;
      pool, managed, pending, permits := [], {}, {}, 0;
      shuttingDown, initialized, degraded := false, false, false;
    }

    method MarkDegraded()
      modifies this`degraded
      ensures Model() == old(Model()).MarkDegraded()
    {
      if !shuttingDown { degraded := true; }
    }

    method ForgetRemovedContainer(c: Cid)
      requires c in managed ==> permits > 0
      modifies this`managed, this`permits
      ensures Model() == old(Model()).ForgetManaged(c)
    {
      var removed := c in managed;
      managed := managed - {c};
      if removed { permits := permits - 1; }
    }

    method ForgetPendingName(c: Cid)
      requires c in pending ==> permits > 0
      modifies this`pending, this`permits
      ensures Model() == old(Model()).ForgetPending(c)
    {
      var removed := c in pending;
      pending := pending - {c};
      if removed { permits := permits - 1; }
    }

    /** Removal that fails changes nothing; removal that succeeds gives the permit back. */
    method CleanupContainer(c: Cid, removes: bool) returns (removed: bool)
      requires Valid() && c !in pool
      modifies this`managed, this`permits
      ensures Valid() && removed == removes
      ensures Model() == if removed then old(Model()).ForgetManaged(c) else old(Model())
    {
      removed := removes;
      if removes { ForgetRemovedContainer(c); }
    }

    /** A create that returns has registered its container; one that raises keeps a permit only for what may still exist. */
    method CreateContainer(name: Cid, fate: CreateFate) returns (r: Created)
      requires Valid() && name !in managed && name !in pending
      modifies this`managed, this`pending, this`permits
      ensures Valid() && pool == old(pool)
      ensures r.Made? <==> !shuttingDown && fate.Works? && old(permits) < size
      ensures r.Made? ==> r.c == name && Model() == old(Model()).PermitTaken().Promoted(name)
      ensures r.Raised? ==> (r.capacity <==> !shuttingDown && !fate.Refused? && old(permits) == size)
      ensures r.Raised? ==> Model() == AfterRaise(old(Model()), name, fate, r.capacity)
    {
      if shuttingDown || fate.Refused? { return Raised(false); }
      if permits == size { return Raised(true); }
      ghost var was := managed;
      ghost var waiting := pending;
      permits := permits + 1;
      pending := pending + {name};
      if fate.CreateFails? {
        if fate.recovered {
          ForgetPendingName(name);
          assert pending == waiting;
        }
        return Raised(false);
      }
      pending := pending - {name};
      managed := managed + {name};
      assert pending == waiting;
      if fate.StartFails? {
        var removed := CleanupContainer(name, fate.removed);
        assert removed ==> managed == was;
        return Raised(false);
      }
      return Made(name);
    }

    method CreateAndAdd(name: Cid, fate: CreateFate) returns (r: Created)
      requires Valid() && name !in managed && name !in pending
      modifies this`pool, this`managed, this`pending, this`permits
      ensures Valid()
      ensures r.Made? <==> !shuttingDown && fate.Works? && old(permits) < size
      ensures r.Made? ==> r.c == name && Model() == old(Model()).PermitTaken().Promoted(name).AddPooled(name)
      ensures r.Raised? ==> (r.capacity <==> !shuttingDown && !fate.Refused? && old(permits) == size)
      ensures r.Raised? ==> Model() == AfterRaise(old(Model()), name, fate, r.capacity)
    {
      r := CreateContainer(name, fate);
      if r.Made? { pool := pool + [name]; }
    }

    /** A warm container if there is one, else one made on the spot; every failure but missing capacity degrades. */
    method GetContainer(name: Cid, fate: CreateFate) returns (r: Created)
      requires Valid() && name !in managed && name !in pending
      modifies this`pool, this`managed, this`pending, this`permits, this`degraded
      ensures Valid()
      ensures r.Made? ==> r.c in managed && r.c !in pool
      ensures old(pool) != [] ==> r == Made(old(pool)[0]) && Model() == old(Model()).TakePooled()
      ensures shuttingDown ==> r == Raised(false) && Model() == old(Model())
      ensures old(pool) == [] && !shuttingDown ==>
        && (r.Made? <==> fate.Works? && old(permits) < size)
        && (r.Made? ==> r.c == name && Model() == old(Model()).PermitTaken().Promoted(name))
        && (r == Raised(true) ==> Model() == old(Model()))
        && (r == Raised(false) ==> Model() == AfterRaise(old(Model()), name, fate, false).MarkDegraded())
    {
      if shuttingDown { return Raised(false); }
      if pool != [] {
        r := Made(pool[0]);
        pool := pool[1..];
        return;
      }
      r := CreateContainer(name, fate);
      if r == Raised(false) { MarkDegraded(); }
    }

    /** A used container never returns: it is replaced by a new one, or the pool is marked degraded. */
    method ReleaseContainer(c: Cid, removes: bool, name: Cid, fate: CreateFate)
      requires Valid() && c in managed && c !in pool && name !in managed && name !in pending
      modifies this`pool, this`managed, this`pending, this`permits, this`degraded
      ensures Valid() && c !in pool
      ensures !removes ==> Model() == old(Model()).MarkDegraded()
      ensures removes && shuttingDown ==> Model() == old(Model()).ForgetManaged(c)
      ensures removes && !shuttingDown && fate.Works? ==>
        && pool == old(pool) + [name] && managed == old(managed) - {c} + {name}
        && pending == old(pending) && permits == old(permits) && degraded == old(degraded)
      ensures removes && !shuttingDown && !fate.Works? ==>
        Model() == AfterRaise(old(Model()).ForgetManaged(c), name, fate, false).MarkDegraded()
    {
      var removed := CleanupContainer(c, removes);
      if !removed { MarkDegraded(); }
      if !removed || shuttingDown { return; }
      var r := CreateAndAdd(name, fate);
      if r.Raised? { MarkDegraded(); }
    }

    method BeginShutdown()
      requires Valid()
      modifies this`shuttingDown, this`pool
      ensures Valid() && Model() == old(Model()).ShutDown()
    {
      if !shuttingDown {
        shuttingDown := true;
        pool := [];
      }
    }

    /** Afterwards exactly the entries whose removal failed are left, each with its permit. */
    method ShutdownPool(removable: set<Cid>)
      requires Valid()
      modifies this`shuttingDown, this`pool, this`managed, this`pending, this`permits
      ensures Valid() && shuttingDown && pool == []
      ensures managed == old(managed) - removable && pending == old(pending) - removable
      ensures permits == |old(managed) - removable| + |old(pending) - removable|
    {
      BeginShutdown();
      RemoveContainers(removable);
      ResolveNames(removable);
    }

    method RemoveContainers(removable: set<Cid>)
      requires Valid() && shuttingDown
      modifies this`managed, this`permits
      ensures Valid() && managed == old(managed) - removable
    {
      var containers := managed;
      while containers != {}
        invariant Valid() && containers <= managed && managed == (old(managed) - removable) + containers
      {
        var c :| c in containers;
        containers := containers - {c};
        var removed := CleanupContainer(c, c in removable);
      }
    }

    method ResolveNames(removable: set<Cid>)
      requires Valid() && shuttingDown
      modifies this`pending, this`permits
      ensures Valid() && pending == old(pending) - removable
    {
      var names := pending;
      while names != {}
        invariant Valid() && names <= pending && pending == (old(pending) - removable) + names
      {
        var n :| n in names;
        names := names - {n};
        if n in removable { ForgetPendingName(n); }
      }
    }

    /** Startup either ends ready, with exactly the new names in the pool, or shuts the manager down. */
    method InitializePool(names: seq<Cid>, fates: seq<CreateFate>, removable: set<Cid>) returns (ok: bool)
      requires size >= 1 && Model() == Manager([], {}, {}, false, false, false, 0)
      requires |names| == |fates| == size && Distinct(names)
      modifies this
      ensures Valid()
      ensures ok <==> forall i :: 0 <= i < size ==> fates[i].Works?
      ensures ok ==> pool == names && Model().Ready(size) && permits == size
      ensures !ok ==> shuttingDown && pool == [] && managed !! removable && pending !! removable
    {
      var made := FillPool(names, fates);
      if made < size {
        ShutdownPool(removable);
        return false;
      }
      assert names[..made] == names;
      initialized := true;
      return true;
    }

    /** Creates until the pool is full or a create raises, and says how many were made. */
    method FillPool(names: seq<Cid>, fates: seq<CreateFate>) returns (made: nat)
      requires Model() == Manager([], {}, {}, false, false, false, 0)
      requires |names| == |fates| == size && Distinct(names)
      modifies this`pool, this`managed, this`pending, this`permits
      ensures Valid() && made <= size && pool == names[..made]
      ensures forall j :: 0 <= j < made ==> fates[j].Works?
      ensures made < size ==> !fates[made].Works?
      ensures made == size ==> |managed| == size && pending == {}
    {
      made := 0;
      var raised := false;
      while made < size && !raised
        invariant made <= size && Valid() && pool == names[..made]
        invariant forall j :: 0 <= j < made ==> fates[j].Works?
        invariant raised ==> made < size && !fates[made].Works?
        invariant !raised ==> Filled(Model(), names, made)
        decreases size - made, !raised
      {
        var created := FillOne(names, fates, made);
        if created { made := made + 1; } else { raised := true; }
      }
    }

    /** One round of the loop: one more container in the pool, or an exception. */
    method FillOne(names: seq<Cid>, fates: seq<CreateFate>, made: nat) returns (created: bool)
      requires Valid() && made < size == |names| == |fates| && Distinct(names) && Filled(Model(), names, made)
      modifies this`pool, this`managed, this`pending, this`permits
      ensures Valid() && created == (fates[made].Works? && !shuttingDown && old(permits) < size)
      ensures if created then Filled(Model(), names, made + 1) else pool == names[..made]
    {
      FilledNext(Model(), names, made);
      var r := CreateAndAdd(names[made], fates[made]);
      return r.Made?;
    }
  }
}
