/** Pool routing (app/pools.py): which concrete printer a job addressed to a pool goes to. */
module Pools {
  import opened Basics
  import opened JobTable

  datatype Kind =
    | EscposNetwork
    | EscposUsb
    | Virtual
    | ZplNetwork
    | StarNetwork
    | Cups
    | IppNetwork
    | Pool(members: seq<PrinterId>, roundRobin: bool)

  datatype Printer = Printer(id: PrinterId, kind: Kind)

  type Printers = map<PrinterId, Printer>

  /** Printers that own one byte stream are driven one job at a time; spoolers are not. */
  predicate Serialized(kind: Kind) {
    kind.EscposNetwork? || kind.EscposUsb? || kind.Virtual? || kind.ZplNetwork? || kind.StarNetwork?
  }

  /** The members that still exist, in listed order; a pool inside a pool is an error. */
  function Members(printers: Printers, ids: seq<PrinterId>): (r: Result<seq<Printer>>)
    ensures r.Ok? ==> forall k :: 0 <= k < |r.value| ==> !r.value[k].kind.Pool?
  {
    if ids == [] then Ok([])
    else if ids[0] !in printers then Members(printers, ids[1..])
    else if printers[ids[0]].kind.Pool? then Err(ValidationError)
    else
      match Members(printers, ids[1..])
      case Err(e) => Err(e)
      case Ok(rest) => Ok([printers[ids[0]]] + rest)
  }

  type Cursors = map<PrinterId, nat>

  function CursorOf(cursors: Cursors, pool: PrinterId): nat {
    if pool in cursors then cursors[pool] else 0
  }

  function StartIndex(cursors: Cursors, pool: PrinterId, n: nat): nat
    requires n > 0
  {
    CursorOf(cursors, pool) % n
  }

  function Rotated<T>(members: seq<T>, start: nat): (order: seq<T>)
    requires start <= |members|
    ensures |order| == |members|
  {
    members[start..] + members[..start]
  }

  /** The order members are tried in. */
  function Order<T>(members: seq<T>, roundRobin: bool, cursors: Cursors, pool: PrinterId): (order: seq<T>)
    ensures |order| == |members|
  {
    if members == [] || !roundRobin then members
    else Rotated(members, StartIndex(cursors, pool, |members|))
  }

  function Advanced<T>(members: seq<T>, roundRobin: bool, cursors: Cursors, pool: PrinterId): Cursors {
    if members == [] || !roundRobin then cursors
    else cursors[pool := (StartIndex(cursors, pool, |members|) + 1) % |members|]
  }

  /** Position of the first probe that answered, if any did. */
  function FirstUp(up: seq<bool>): (k: Option<nat>)
    ensures k.Some? ==> k.value < |up| && up[k.value] && forall i :: 0 <= i < k.value ==> !up[i]
    ensures k.None? ==> forall i :: 0 <= i < |up| ==> !up[i]
  {
    if up == [] then None
    else if up[0] then Some(0)
    else match FirstUp(up[1..])
      case None => None
      case Some(k) => assert forall i :: 0 < i < |up| ==> up[i] == up[1..][i - 1]; Some(k + 1)
  }
}
