/** The in-memory `PortService` (package `memory`): a map from port ID to
    record. The store is a value; each mutating operation returns the store
    it leaves behind together with the error it reports. */
module Memory {
  import opened Common
  import opened Ports

  /** `portMemory`: the map the mutex guards. */
  datatype PortMemory = PortMemory(ports: map<string, Port>)

  /** What `Create` and `Update` leave behind and report. */
  datatype Mutation = Mutation(memory: PortMemory, err: Option<ServiceError>)

  /** `NewPortMemory`: a store that holds no port at all. */
  function NewPortMemory(): (m: PortMemory)
    ensures forall id :: id !in m.ports
  {
    PortMemory(map[])
  }

  /** `Create`: refuses an ID already present and leaves the store exactly
      as it was; otherwise adds the one entry and touches no other key. */
  function Create(m: PortMemory, id: string, port: Port): (r: Mutation)
    ensures r.err != None <==> id in m.ports
    ensures id in m.ports ==> r.err == Some(ErrPortAlreadyExist) && r.memory == m
    ensures r.memory.ports.Keys == m.ports.Keys + {id}
    ensures id !in m.ports ==> r.memory.ports[id] == port
    ensures forall k :: k in m.ports ==> r.memory.ports[k] == m.ports[k]
  {
    if id in m.ports then Mutation(m, Some(ErrPortAlreadyExist))
    else Mutation(PortMemory(m.ports[id := port]), None)
  }

  /** `Get`: the stored record itself, or the zero record with
      `ErrPortNotFound`. A lookup returns no store, so it cannot change one. */
  function Get(m: PortMemory, id: string): (r: Lookup)
    ensures r.err == None <==> id in m.ports
    ensures r.err != None ==> r.err == Some(ErrPortNotFound) && r.port == ZeroPort
    ensures r.err == None ==> r.port == m.ports[id]
  {
    if id in m.ports then Lookup(m.ports[id], None) else Lookup(ZeroPort, Some(ErrPortNotFound))
  }

  /** `Update`: refuses an absent ID without inserting it; otherwise
      replaces the stored record wholesale. The key set never changes. */
  function Update(m: PortMemory, id: string, port: Port): (r: Mutation)
    ensures r.err != None <==> id !in m.ports
    ensures id !in m.ports ==> r.err == Some(ErrPortNotFound) && r.memory == m
    ensures r.memory.ports.Keys == m.ports.Keys
    ensures id in m.ports ==> r.memory.ports[id] == port
    ensures forall k :: k in m.ports && k != id ==> r.memory.ports[k] == m.ports[k]
  {
    if id !in m.ports then Mutation(m, Some(ErrPortNotFound))
    else Mutation(PortMemory(m.ports[id := port]), None)
  }

  /** A fresh store answers every lookup with `ErrPortNotFound`. */
  lemma FreshStoreIsEmpty(id: string)
    ensures Get(NewPortMemory(), id) == Lookup(ZeroPort, Some(ErrPortNotFound))
  {
  }

  /** After a successful `Create`, `Get` returns exactly the record given,
      and every other ID answers as before. */
  lemma CreateThenGet(m: PortMemory, id: string, port: Port, other: string)
    requires id !in m.ports
    ensures Get(Create(m, id, port).memory, id) == Lookup(port, None)
    ensures other != id ==> Get(Create(m, id, port).memory, other) == Get(m, other)
  {
  }

  /** Creating the same ID twice: the second call fails with
      `ErrPortAlreadyExist` and the store stays as the first call left it. */
  lemma CreateTwice(m: PortMemory, id: string, first: Port, second: Port)
    ensures var m1 := Create(m, id, first).memory;
      Create(m1, id, second) == Mutation(m1, Some(ErrPortAlreadyExist))
  {
  }

  /** `Update` of a present ID is a full replacement: a later `Get` returns
      the new record and nothing of the old one, whatever it held. */
  lemma UpdateThenGet(m: PortMemory, id: string, port: Port, other: string)
    requires id in m.ports
    ensures Get(Update(m, id, port).memory, id) == Lookup(port, None)
    ensures other != id ==> Get(Update(m, id, port).memory, other) == Get(m, other)
  {
  }

  /** `Update` of an absent ID fails and the ID stays absent. */
  lemma UpdateAbsent(m: PortMemory, id: string, port: Port)
    requires id !in m.ports
    ensures Update(m, id, port).err == Some(ErrPortNotFound)
    ensures Get(Update(m, id, port).memory, id) == Lookup(ZeroPort, Some(ErrPortNotFound))
  {
  }

  /** Create of a new ID then Update then Get: the update wins entirely. */
  lemma CreateUpdateGet(m: PortMemory, id: string, r1: Port, r2: Port)
    requires id !in m.ports
    ensures var m1 := Create(m, id, r1).memory;
      Update(m1, id, r2).err == None && Get(Update(m1, id, r2).memory, id) == Lookup(r2, None)
  {
  }

  /** The IDs a run of records carries. */
  function Ids(items: seq<PortWithID>): set<string>
    decreases |items|
  {
    if items == [] then {} else {items[0].id} + Ids(items[1..])
  }

  /** Successive `Create` calls, one per record, in order; the result holds
      the final store and the error each call reported. */
  function CreateAll(m: PortMemory, items: seq<PortWithID>): (r: (PortMemory, seq<Option<ServiceError>>))
    ensures |r.1| == |items|
    ensures r.0.ports.Keys == m.ports.Keys + Ids(items)
    decreases |items|
  {
    if items == [] then (m, [])
    else
      var step := Create(m, items[0].id, items[0].port);
      var rest := CreateAll(step.memory, items[1..]);
      (rest.0, [step.err] + rest.1)
  }

  /** A record already in the store survives any later run of `Create`
      calls unchanged: `Create` never overwrites. */
  lemma {:induction false} CreateAllKeepsExisting(m: PortMemory, items: seq<PortWithID>, id: string)
    requires id in m.ports
    ensures Get(CreateAll(m, items).0, id) == Get(m, id)
    decreases |items|
  {
    if items != [] {
      var step := Create(m, items[0].id, items[0].port);
      CreateAllKeepsExisting(step.memory, items[1..], id);
    }
  }

  /** IDs that are pairwise distinct and new to the store: every `Create`
      succeeds and every record is retrievable afterwards; no write is lost. */
  lemma {:induction false} CreateAllDistinct(m: PortMemory, items: seq<PortWithID>)
    requires forall i, j :: 0 <= i < j < |items| ==> items[i].id != items[j].id
    requires forall i :: 0 <= i < |items| ==> items[i].id !in m.ports
    ensures forall i :: 0 <= i < |CreateAll(m, items).1| ==> CreateAll(m, items).1[i] == None
    ensures forall i :: 0 <= i < |items| ==> Get(CreateAll(m, items).0, items[i].id) == Lookup(items[i].port, None)
    decreases |items|
  {
    if items != [] {
      var step := Create(m, items[0].id, items[0].port);
      var tail := items[1..];
      assert forall i :: 0 <= i < |tail| ==> tail[i] == items[i + 1];
      CreateAllDistinct(step.memory, tail);
      CreateAllKeepsExisting(step.memory, tail, items[0].id);
      var r := CreateAll(m, items);
      assert r.1 == [step.err] + CreateAll(step.memory, tail).1;
      forall i | 0 <= i < |items|
        ensures Get(r.0, items[i].id) == Lookup(items[i].port, None)
      {
        if i > 0 {
          assert items[i] == tail[i - 1];
        }
      }
    }
  }
}
