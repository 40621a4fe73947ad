/**
 What the modules anchor in the Lua registry: header payloads and buffer blocks,
 and the userdata and closure of each close hook.
 */
module Anchors {
  import opened CmsgLayout
  import opened SocketMachine

  datatype Anchor = Text(bytes: seq<byte>) | Block(memory: array<byte>) | SelfRef(g: Gcfn) | Closure(h: nat, fn: Script)

  datatype Links = Links(refSelf: int, refFn: int, prev: Gcfn?, next: Gcfn?)

  // lls_gcfn_t
  class Gcfn {
    var refSelf: int
    var refFn: int
    var prev: Gcfn?
    var next: Gcfn?
    // the hook this is the node of, and its socket
    ghost const id: nat
    ghost const owner: nat

    constructor (refSelf: int, refFn: int, ghost id: nat, ghost owner: nat)
      ensures Value() == Links(refSelf, refFn, null, null) && this.id == id && this.owner == owner
    {
      this.refSelf, this.refFn, prev, next := refSelf, refFn, null, null;
      this.id, this.owner := id, owner;
    }

    ghost function Value(): Links
      reads this
    {
      Links(refSelf, refFn, prev, next)
    }
  }
}
