/** The shared base of client and server: handler and packet registries
    de-duplicated by numeric ID, and the debug flag. */
module Japson {

  /** A handler object; `instance` stands for object identity, since the
      registry is a hash set of objects that do not define equality. */
  datatype Handler = Handler(id: bv8, instance: nat)

  /** A packet object, with the same identity convention. */
  datatype Packet = Packet(id: int, instance: nat)

  datatype Japson = Japson(handlers: set<Handler>, packets: set<Packet>, debug: bool)

  function Initial(): (r: Japson) {
    Japson({}, {}, false)
  }

  /** No two members share an ID. */
  ghost predicate UniqueIds<T>(items: set<T>, id: T -> int) {
    forall a, b :: a in items && b in items && id(a) == id(b) ==> a == b
  }

  /** Some member of `items` carries `key` as its ID. */
  predicate HasId<T>(items: set<T>, id: T -> int, key: int) {
    exists h :: h in items && id(h) == key
  }

  /** The registration stream: each argument, in the order the argument set
      is iterated, is added unless a member registered so far (including one
      added earlier in the same call) already has its ID. */
  function Register<T>(existing: set<T>, args: seq<T>, id: T -> int): (r: set<T>)
    ensures existing <= r
    ensures forall h :: h in r ==> h in existing || h in args
    decreases |args|
  {
    if |args| == 0 then existing
    else
      var soFar := Register(existing, args[..|args| - 1], id);
      var a := args[|args| - 1];
      if HasId(soFar, id, id(a)) then soFar else soFar + {a}
  }

  /** After registration every argument's ID is represented. */
  lemma {:induction false} RegisterCovers<T>(existing: set<T>, args: seq<T>, id: T -> int, i: int)
    requires 0 <= i < |args|
    ensures HasId(Register(existing, args, id), id, id(args[i]))
    decreases |args|
  {
    var r := Register(existing, args, id);
    var soFar := Register(existing, args[..|args| - 1], id);
    if i < |args| - 1 {
      assert args[..|args| - 1][i] == args[i];
      RegisterCovers(existing, args[..|args| - 1], id, i);
      var h :| h in soFar && id(h) == id(args[i]);
      assert h in r;
    } else if !HasId(soFar, id, id(args[i])) {
      assert args[i] in r;
    }
  }

  /** A member is only added when no member already present has its ID. */
  lemma {:induction false} RegisterSkipsTaken<T>(existing: set<T>, args: seq<T>, id: T -> int, h: T, e: T)
    requires h in Register(existing, args, id) && h !in existing
    requires e in existing
    ensures id(e) != id(h)
    decreases |args|
  {
    var soFar := Register(existing, args[..|args| - 1], id);
    if h in soFar {
      RegisterSkipsTaken(existing, args[..|args| - 1], id, h, e);
    } else {
      assert h == args[|args| - 1];
      assert !HasId(soFar, id, id(h));
      assert e in soFar;
    }
  }

  /** Registration keeps IDs unique. */
  lemma {:induction false} RegisterUnique<T>(existing: set<T>, args: seq<T>, id: T -> int)
    requires UniqueIds(existing, id)
    ensures UniqueIds(Register(existing, args, id), id)
    decreases |args|
  {
    if |args| > 0 {
      RegisterUnique(existing, args[..|args| - 1], id);
    }
  }

  function HandlerId(h: Handler): (r: int) {
    h.id as int
  }

  function PacketId(p: Packet): (r: int) {
    p.id
  }

  /** `registerHandlers`: only the handler set changes, and only by growing. */
  function RegisterHandlers(j: Japson, args: seq<Handler>): (r: Japson)
    ensures r.packets == j.packets && r.debug == j.debug
    ensures j.handlers <= r.handlers
    ensures forall h :: h in r.handlers ==> h in j.handlers || h in args
  {
    j.(handlers := Register(j.handlers, args, HandlerId))
  }

  /** `registerPackets`: only the packet set changes, and only by growing. */
  function RegisterPackets(j: Japson, args: seq<Packet>): (r: Japson)
    ensures r.handlers == j.handlers && r.debug == j.debug
    ensures j.packets <= r.packets
    ensures forall p :: p in r.packets ==> p in j.packets || p in args
  {
    j.(packets := Register(j.packets, args, PacketId))
  }

  /** Handler registration: every argument's ID ends up registered, a
      newcomer never shares an ID with a handler registered before the
      call, and unique IDs stay unique. */
  lemma RegisterHandlersById(j: Japson, args: seq<Handler>)
    ensures forall i :: 0 <= i < |args| ==>
      exists h :: h in RegisterHandlers(j, args).handlers && h.id == args[i].id
    ensures forall h, e :: h in RegisterHandlers(j, args).handlers - j.handlers && e in j.handlers ==> e.id != h.id
    ensures UniqueIds(j.handlers, HandlerId) ==> UniqueIds(RegisterHandlers(j, args).handlers, HandlerId)
  {
    var r := RegisterHandlers(j, args).handlers;
    forall i | 0 <= i < |args|
      ensures exists h :: h in r && h.id == args[i].id
    {
      RegisterCovers(j.handlers, args, HandlerId, i);
      var h :| h in r && HandlerId(h) == HandlerId(args[i]);
      assert h.id == args[i].id;
    }
    forall h, e | h in r - j.handlers && e in j.handlers
      ensures e.id != h.id
    {
      RegisterSkipsTaken(j.handlers, args, HandlerId, h, e);
    }
    if UniqueIds(j.handlers, HandlerId) {
      RegisterUnique(j.handlers, args, HandlerId);
    }
  }

  /** Packet registration: the same three guarantees, by packet ID. */
  lemma RegisterPacketsById(j: Japson, args: seq<Packet>)
    ensures forall i :: 0 <= i < |args| ==>
      exists p :: p in RegisterPackets(j, args).packets && p.id == args[i].id
    ensures forall p, e :: p in RegisterPackets(j, args).packets - j.packets && e in j.packets ==> e.id != p.id
    ensures UniqueIds(j.packets, PacketId) ==> UniqueIds(RegisterPackets(j, args).packets, PacketId)
  {
    var r := RegisterPackets(j, args).packets;
    forall i | 0 <= i < |args|
      ensures exists p :: p in r && p.id == args[i].id
    {
      RegisterCovers(j.packets, args, PacketId, i);
    }
    forall p, e | p in r - j.packets && e in j.packets
      ensures e.id != p.id
    {
      RegisterSkipsTaken(j.packets, args, PacketId, p, e);
    }
    if UniqueIds(j.packets, PacketId) {
      RegisterUnique(j.packets, args, PacketId);
    }
  }

  /** `enableDebug`: the flag is set and nothing else changes. */
  function EnableDebug(j: Japson): (r: Japson)
    ensures r.debug
    ensures r.handlers == j.handlers && r.packets == j.packets
  {
    j.(debug := true)
  }

  /** `isDebug`: whether debug output was switched on. */
  function IsDebug(j: Japson): (r: bool)
    ensures r <==> j.debug
  {
    j.debug
  }

  /** Enabling debug twice is enabling it once; `isDebug` reports it, and a
      fresh instance starts with it off. */
  lemma DebugFlag(j: Japson)
    ensures EnableDebug(EnableDebug(j)) == EnableDebug(j)
    ensures IsDebug(EnableDebug(j))
    ensures !IsDebug(Initial())
  {
  }
}
