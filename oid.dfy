/**
 * Object identifiers. An `OID` wraps a freshly drawn GUID and compares by
 * it; the model draws GUIDs from a counter, so a fresh identifier differs
 * from every identifier handed out before.
 */
module Oids {

  /** `OID`: equality and hashing are by the wrapped GUID alone. */
  datatype Oid = Oid(guid: nat)

  /** The supply of fresh GUIDs behind `new OID()`. */
  class OidSupply {
    var next: nat
    ghost var issued: set<Oid>

    ghost predicate Valid()
      reads this
    {
      forall o :: o in issued ==> o.guid < next
    }

    constructor ()
      ensures Valid() && issued == {} && next == 0
    {
      next := 0;
      issued := {};
    }

    /** `new OID()`: an identifier equal to none issued before. */
    method NewOid() returns (o: Oid)
      requires Valid()
      modifies this
      ensures Valid()
      ensures o !in old(issued) && issued == old(issued) + {o}
      ensures next == old(next) + 1
    {
      o := Oid(next);
      issued := issued + {o};
      next := next + 1;
    }
  }

  /** Two identifiers drawn one after the other from a supply are unequal. */
  method TwoFreshOids(supply: OidSupply) returns (a: Oid, b: Oid)
    requires supply.Valid()
    modifies supply
    ensures a != b
    ensures a !in old(supply.issued) && b !in old(supply.issued)
  {
    a := supply.NewOid();
    b := supply.NewOid();
  }
}
