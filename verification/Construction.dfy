/** Building a daemon from a list of Host names: every store opened on the way
    is either handed over in the finished directory or shut again. */
module Construction {
  import opened HostLedger
  import opened Options

  /** What the surroundings decide during one construction. */
  datatype Env = Env(
    bootstrap: bool,
    pathOk: Name -> bool,
    minted: Name -> Peer,
    storeOk: Name -> bool,
    programsOk: Name -> bool,
    ensembleOk: bool,
    attachOk: Name -> bool,
    composeOk: Name -> bool)

  /** Is a list of Host names acceptable: within capacity, none repeated? */
  method ValidateHostNames(names: seq<Name>) returns (ok: bool)
    ensures ok <==> |names| <= MAX_LOCAL_HOSTS && Distinct(names)
  {
    if |names| > MAX_LOCAL_HOSTS {
      return false;
    }
    var seen: set<Name> := {};
    for i := 0 to |names|
      invariant seen == set k | 0 <= k < i :: names[k]
      invariant Distinct(names[..i])
    {
      if names[i] in seen {
        assert names[i] in names[..i];
        return false;
      }
      seen := seen + {names[i]};
      assert names[..i + 1] == names[..i] + [names[i]];
    }
    assert names[..|names|] == names;
    return true;
  }

  /** The finished daemon's directory: it files every name, each over its own
      open store with a running service, and no store lies outside it. */
  ghost predicate Constructed(stores: seq<Store>, hosts: map<Name, Handle>) {
    && Filed(stores, hosts)
    && |hosts| <= MAX_LOCAL_HOSTS
    && forall h :: 0 <= h < |stores| ==> Serving(stores[h]) && Listed(stores, hosts, h)
  }

  /** Store `h` after the services of the hosts named in `done` were stopped. */
  function StopIn(stores: seq<Store>, hosts: map<Name, Handle>, done: set<Name>, h: Handle): Store
    requires h < |stores|
  {
    if Listed(stores, hosts, h) && stores[h].name in done then StopService(stores[h]) else stores[h]
  }

  /** Store `h` after the stores of the hosts named in `done` were shut. */
  function ShutIn(stores: seq<Store>, hosts: map<Name, Handle>, done: set<Name>, h: Handle): Store
    requires h < |stores|
  {
    if Listed(stores, hosts, h) && stores[h].name in done then Shut(stores[h]) else stores[h]
  }

  predicate Openable(name: Name, identities: map<Name, Peer>, env: Env) {
    env.pathOk(name) && (name in identities || env.bootstrap) && env.storeOk(name)
  }

  /** Everything a construction needs from its names and surroundings. */
  ghost predicate Succeeds(names: seq<Name>, identities: map<Name, Peer>, env: Env) {
    && |names| <= MAX_LOCAL_HOSTS && Distinct(names)
    && (forall k :: 0 <= k < |names| ==> Openable(names[k], identities, env))
    && (forall k :: 0 <= k < |names| ==> env.programsOk(names[k]))
    && env.ensembleOk
    && (forall k :: 0 <= k < |names| ==> env.attachOk(names[k]) && env.composeOk(names[k]))
  }

  class Startup {
    var stores: seq<Store>
    var identities: map<Name, Peer>
    /** How often the shared ensemble was started, and stopped. */
    var starts: nat
    var stops: nat

    constructor (identities: map<Name, Peer>)
      ensures stores == [] && this.identities == identities && starts == 0 && stops == 0
    {
      stores, starts, stops := [], 0, 0;
      this.identities := identities;
    }

    /** Open one Host home, minting an identity only where there is none. */
    method OpenHost(name: Name, env: Env) returns (h: Option<Handle>)
      modifies this`stores, this`identities
      ensures h.Some? <==> Openable(name, old(identities), env)
      ensures h.None? ==> stores == old(stores)
      ensures h.Some? ==> h.value == |old(stores)| && name in identities
      ensures h.Some? ==> stores == old(stores) + [NewStore(name, identities[name])]
      ensures identities ==
        if name !in old(identities) && env.pathOk(name) && env.bootstrap then old(identities)[name := env.minted(name)]
        else old(identities)
      ensures Identified(old(stores), old(identities)) ==> Identified(stores, identities)
    {
      if !env.pathOk(name) {
        return None;
      }
      if name !in identities {
        if !env.bootstrap {
          return None;
        }
        identities := identities[name := env.minted(name)];
      }
      if !env.storeOk(name) {
        return None;
      }
      h := Some(|stores|);
      stores := stores + [NewStore(name, identities[name])];
    }

    /** Shut the stores from `from` on, none of which has a service. */
    method ShutdownConfigs(from: nat)
      requires from <= |stores|
      modifies this`stores
      ensures |stores| == |old(stores)|
      ensures forall h :: 0 <= h < from ==> stores[h] == old(stores)[h]
      ensures forall h :: from <= h < |stores| ==> stores[h] == Shut(old(stores)[h])
    {
      for k := from to |stores|
        invariant |stores| == |old(stores)|
        invariant forall h :: 0 <= h < from ==> stores[h] == old(stores)[h]
        invariant forall h :: from <= h < k ==> stores[h] == Shut(old(stores)[h])
        invariant forall h :: k <= h < |stores| ==> stores[h] == old(stores)[h]
      {
        stores := stores[k := Shut(stores[k])];
      }
    }

    method StopServices(slots: map<Name, Handle>)
      requires Filed(stores, slots)
      modifies this`stores
      ensures |stores| == |old(stores)|
      ensures forall h :: 0 <= h < |stores| ==> stores[h] == StopIn(old(stores), slots, slots.Keys, h)
    {
      var left := slots.Keys;
      while left != {}
        invariant left <= slots.Keys && |stores| == |old(stores)|
        invariant forall h :: 0 <= h < |stores| ==>
          stores[h] == StopIn(old(stores), slots, slots.Keys - left, h)
        decreases left
      {
        var n :| n in left;
        stores := stores[slots[n] := StopService(stores[slots[n]])];
        left := left - {n};
      }
    }

    method ShutSlots(slots: map<Name, Handle>)
      requires Filed(stores, slots)
      modifies this`stores
      ensures |stores| == |old(stores)|
      ensures forall h :: 0 <= h < |stores| ==> stores[h] == ShutIn(old(stores), slots, slots.Keys, h)
    {
      var left := slots.Keys;
      while left != {}
        invariant left <= slots.Keys && |stores| == |old(stores)|
        invariant forall h :: 0 <= h < |stores| ==>
          stores[h] == ShutIn(old(stores), slots, slots.Keys - left, h)
        decreases left
      {
        var n :| n in left;
        stores := stores[slots[n] := Shut(stores[slots[n]])];
        left := left - {n};
      }
    }

    /** Give back what a construction that failed while composing had: the
        first `ready` stores run services, the others have none. */
    method ShutdownOwners(ghost names: seq<Name>, slots: map<Name, Handle>, ready: nat)
      requires Composing(stores, names, slots, ready)
      modifies this`stores, this`stops
      ensures AllReleased(stores) && stops == old(stops) + 1
      ensures Identified(old(stores), identities) ==> Identified(stores, identities)
    {
      ghost var before := stores;
      StopServices(slots);
      stops := stops + 1;
      ghost var stopped := stores;
      ShutSlots(slots);
      ghost var shut := stores;
      ShutdownConfigs(ready);
      forall h | 0 <= h < |stores| ensures Released(stores[h]) {
        if h < ready {
          assert Listed(before, slots, h) && stopped[h] == StopService(before[h]);
          assert Listed(stopped, slots, h) && shut[h] == Shut(stopped[h]);
        } else {
          assert !Listed(before, slots, h) && stopped[h] == before[h];
          assert !Listed(stopped, slots, h) && shut[h] == before[h];
        }
      }
    }

    /** Open every Host home in turn; on a failure shut what was opened. */
    method Provision(names: seq<Name>, env: Env) returns (ok: bool)
      requires stores == []
      modifies this`stores, this`identities
      ensures !ok ==> AllReleased(stores)
      ensures ok ==> Provisioned(stores, names)
      ensures ok <==> forall k :: 0 <= k < |names| ==> Openable(names[k], old(identities), env)
      ensures forall n :: n in old(identities) ==> n in identities && identities[n] == old(identities)[n]
      ensures !env.bootstrap ==> identities == old(identities)
      ensures forall n :: n in identities && n !in old(identities) ==> n in names && identities[n] == env.minted(n)
      ensures ok ==> Identified(stores, identities)
    {
      for i := 0 to |names|
        invariant Provisioned(stores, names[..i]) && Identified(stores, identities)
        invariant forall k :: 0 <= k < i ==> Openable(names[k], old(identities), env)
        invariant forall n :: n in old(identities) ==> n in identities && identities[n] == old(identities)[n]
        invariant !env.bootstrap ==> identities == old(identities)
        invariant forall n :: n in identities && n !in old(identities) ==> n in names && identities[n] == env.minted(n)
      {
        assert Openable(names[i], identities, env) <==> Openable(names[i], old(identities), env);
        var h := OpenHost(names[i], env);
        if h.None? {
          assert !Openable(names[i], old(identities), env);
          ShutdownConfigs(0);
          return false;
        }
      }
      assert names[..|names|] == names;
      return true;
    }

    /** Bring up a daemon over `names`. */
    method Construct(names: seq<Name>, env: Env) returns (r: Option<map<Name, Handle>>)
      requires stores == [] && starts == 0 && stops == 0
      modifies this
      ensures r.None? ==> AllReleased(stores) && starts == stops
      ensures r.Some? ==> Constructed(stores, r.value) && r.value.Keys == (set n | n in names)
      ensures r.Some? ==> starts == 1 && stops == 0 && Identified(stores, identities)
      ensures r.Some? <==> Succeeds(names, old(identities), env)
      ensures forall n :: n in old(identities) ==> n in identities && identities[n] == old(identities)[n]
      ensures forall n :: n in identities && n !in old(identities) ==> n in names && identities[n] == env.minted(n)
    {
      var valid := ValidateHostNames(names);
      if !valid {
        return None;
      }
      var ok := Provision(names, env);
      if !ok {
        return None;
      }
      for i := 0 to |names|
        invariant Provisioned(stores, names) && Identified(stores, identities)
        invariant forall k :: 0 <= k < i ==> env.programsOk(names[k])
      {
        if !env.programsOk(names[i]) {
          ShutdownConfigs(0);
          return None;
        }
      }
      if !env.ensembleOk {
        ShutdownConfigs(0);
        return None;
      }
      starts := 1;
      r := ComposeAll(names, env);
    }

    /** Put a service on every store and file it in the directory. */
    method ComposeAll(names: seq<Name>, env: Env) returns (r: Option<map<Name, Handle>>)
      requires Provisioned(stores, names) && Distinct(names) && |names| <= MAX_LOCAL_HOSTS
      modifies this`stores, this`stops
      ensures r.None? ==> AllReleased(stores) && stops == old(stops) + 1
      ensures r.Some? ==> Constructed(stores, r.value) && stops == old(stops)
      ensures r.Some? ==> r.value.Keys == set n | n in names
      ensures Identified(old(stores), identities) ==> Identified(stores, identities)
      ensures r.Some? <==> forall k :: 0 <= k < |names| ==> env.attachOk(names[k]) && env.composeOk(names[k])
    {
      var ready: map<Name, Handle> := map[];
      for i := 0 to |names|
        invariant stops == old(stops)
        invariant Composing(stores, names, ready, i)
        invariant Identified(old(stores), identities) ==> Identified(stores, identities)
        invariant forall k :: 0 <= k < i ==> env.attachOk(names[k]) && env.composeOk(names[k])
      {
        if !env.attachOk(names[i]) || !env.composeOk(names[i]) {
          ShutdownOwners(names, ready, i);
          return None;
        }
        ComposeNext(stores, names, ready, i);
        stores := stores[i := Compose(stores[i])];
        ready := ready[names[i] := i];
      }
      ComposedAll(stores, names, ready);
      return Some(ready);
    }
  }

  ghost predicate Provisioned(stores: seq<Store>, names: seq<Name>) {
    && |stores| == |names|
    && forall h :: 0 <= h < |stores| ==> Bare(stores[h]) && stores[h].name == names[h]
  }

  /** Part-way through composition: the first `ready` stores are filed and
      serving, the rest are bare. */
  ghost predicate Composing(stores: seq<Store>, names: seq<Name>, slots: map<Name, Handle>, ready: nat) {
    && ready <= |names| == |stores|
    && |slots| == ready
    && Filed(stores, slots)
    && (forall h :: 0 <= h < |stores| ==> stores[h].name == names[h])
    && (forall h :: 0 <= h < ready ==> Serving(stores[h]) && Listed(stores, slots, h))
    && (forall h :: ready <= h < |stores| ==> Bare(stores[h]) && stores[h].name !in slots)
  }

  lemma FileNext(stores: seq<Store>, slots: map<Name, Handle>, i: nat)
    requires Filed(stores, slots) && i < |stores| && stores[i].name !in slots
    ensures |slots[stores[i].name := i]| == |slots| + 1
    ensures Filed(stores[i := Compose(stores[i])], slots[stores[i].name := i])
  {
    assert slots[stores[i].name := i].Keys == slots.Keys + {stores[i].name};
  }

  lemma ComposeNext(stores: seq<Store>, names: seq<Name>, slots: map<Name, Handle>, i: nat)
    requires Composing(stores, names, slots, i) && i < |names| && Distinct(names)
    ensures Composing(stores[i := Compose(stores[i])], names, slots[names[i] := i], i + 1)
  {
    FileNext(stores, slots, i);
    var after, filed := stores[i := Compose(stores[i])], slots[names[i] := i];
    forall h | 0 <= h < |after|
      ensures after[h].name == names[h]
      ensures h <= i ==> Serving(after[h]) && Listed(after, filed, h)
      ensures h > i ==> Bare(after[h]) && after[h].name !in filed
    {
      assert h != i ==> names[h] != names[i] && after[h] == stores[h];
    }
  }

  lemma ComposedAll(stores: seq<Store>, names: seq<Name>, slots: map<Name, Handle>)
    requires Composing(stores, names, slots, |names|)
    ensures slots.Keys == set n | n in names
    ensures |names| <= MAX_LOCAL_HOSTS ==> Constructed(stores, slots)
  {
    forall n | n in slots ensures n in names {
      assert names[slots[n]] == n;
    }
    forall n | n in names ensures n in slots {
      var k :| 0 <= k < |names| && names[k] == n;
      assert Listed(stores, slots, k);
    }
  }
}
