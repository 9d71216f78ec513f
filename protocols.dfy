/**
 * The PoC registry (`protocols/protocols.go`): each PoC package registers
 * itself by appending to the package-level slice `PocObjSlice`.
 */
module Protocols {

  /**
   * A registered `PocFunc`, seen through `GetPocInfo()`; `id` tells apart
   * distinct PoC objects whose info maps happen to be equal.
   */
  datatype Poc = Poc(id: nat, info: map<string, string>)

  /** The package-level `PocObjSlice`. */
  class Registry {
    var pocObjSlice: seq<Poc>

    /** The slice starts out nil. */
    constructor ()
      ensures pocObjSlice == []
    {
      pocObjSlice := [];
    }

    /**
     * `AddPocObj`: one more entry, the new PoC last, the earlier entries in
     * registration order, and no check for duplicates.
     */
    method AddPocObj(poc: Poc)
      modifies this
      ensures pocObjSlice == old(pocObjSlice) + [poc]
      ensures |pocObjSlice| == |old(pocObjSlice)| + 1 && pocObjSlice[|pocObjSlice| - 1] == poc
      ensures pocObjSlice[..|old(pocObjSlice)|] == old(pocObjSlice)
    {
      pocObjSlice := pocObjSlice + [poc];
    }
  }

  /**
   * Registering the same PoC twice through `AddPocObj` stores it twice:
   * the registry keeps duplicates, in registration order.
   */
  method RegisteredTwice(r: Registry, poc: Poc)
    modifies r
    ensures r.pocObjSlice == old(r.pocObjSlice) + [poc, poc]
    ensures multiset(r.pocObjSlice)[poc] == multiset(old(r.pocObjSlice))[poc] + 2
  {
    r.AddPocObj(poc);
    r.AddPocObj(poc);
  }
}
