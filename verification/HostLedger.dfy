/** What has been done to each durable store that a daemon opened. Effects are
    recorded whether or not they make sense, so that a store shut twice, or
    shut under a running service, shows. */
module HostLedger {
  /** A Host name; only equality of names matters here. */
  type Name = nat
  type Peer = nat
  type Handle = nat

  const MAX_LOCAL_HOSTS: nat := 64

  datatype Effect = ServiceStarted | ServiceStopped | StoreShut

  /** A store and what was done to it, in order. */
  datatype Store = Store(name: Name, peer: Peer, effects: seq<Effect>)

  function NewStore(name: Name, peer: Peer): Store {
    Store(name, peer, [])
  }

  /** A service is put on the store. */
  function Compose(r: Store): Store {
    r.(effects := r.effects + [ServiceStarted])
  }

  function StopService(r: Store): Store {
    r.(effects := r.effects + [ServiceStopped])
  }

  function Shut(r: Store): Store {
    r.(effects := r.effects + [StoreShut])
  }

  predicate IsOpen(r: Store) {
    StoreShut !in r.effects
  }

  /** Open, with no service yet. */
  predicate Bare(r: Store) {
    r.effects == []
  }

  predicate Serving(r: Store) {
    r.effects == [ServiceStarted]
  }

  /** Still open, and no service runs on it. */
  predicate Quiet(r: Store) {
    r.effects == [] || r.effects == [ServiceStarted, ServiceStopped]
  }

  /** Shut exactly once, after its service, if it ever had one, was stopped
      exactly once. */
  predicate Released(r: Store) {
    r.effects == [StoreShut] || r.effects == [ServiceStarted, ServiceStopped, StoreShut]
  }

  /** At some point of such a life: nothing was done twice or out of order. */
  predicate Proper(r: Store) {
    r.effects <= [StoreShut] || r.effects <= [ServiceStarted, ServiceStopped, StoreShut]
  }

  predicate AllReleased(stores: seq<Store>) {
    forall h :: 0 <= h < |stores| ==> Released(stores[h])
  }

  /** Store `h` is the one the directory holds under its name. */
  predicate Listed(stores: seq<Store>, hosts: map<Name, Handle>, h: Handle)
    requires h < |stores|
  {
    stores[h].name in hosts && hosts[stores[h].name] == h
  }

  /** The directory files each Host under its own name. */
  predicate Filed(stores: seq<Store>, hosts: map<Name, Handle>) {
    forall n :: n in hosts ==> hosts[n] < |stores| && stores[hosts[n]].name == n
  }

  lemma FiledValues(stores: seq<Store>, hosts: map<Name, Handle>, h: Handle)
    requires Filed(stores, hosts) && h < |stores|
    ensures h in hosts.Values <==> Listed(stores, hosts, h)
  {
    if h in hosts.Values {
      var n :| n in hosts && hosts[n] == h;
      assert stores[hosts[n]].name == n;
    }
  }

  /** Every store was opened for the identity kept on disk under its name. */
  predicate Identified(stores: seq<Store>, identities: map<Name, Peer>) {
    forall h :: 0 <= h < |stores| ==>
      stores[h].name in identities && identities[stores[h].name] == stores[h].peer
  }

  predicate Distinct(names: seq<Name>) {
    forall i, j :: 0 <= i < j < |names| ==> names[i] != names[j]
  }
}
