/** Vehicles as the traffic monitor sees them, and the ledger key derived from one.
    The source's class hierarchy (Bicycle, Car, Scooter) only contributes a constant
    category name, so a vehicle here is an identity and that name. */
module Vehicles {

  /** A vehicle observation: a caller-assigned identity and its category name. */
  datatype Vehicle = Vehicle(id: string, kind: string)

  /** The three categories of the source, each a constant name. */
  function Bicycle(id: string): Vehicle { Vehicle(id, "Bicycle") }
  function Car(id: string): Vehicle { Vehicle(id, "Car") }
  function Scooter(id: string): Vehicle { Vehicle(id, "Scooter") }

  /** The ledger key: identity, a hyphen, then the category name. */
  function KeyOf(id: string, kind: string): string
  {
    id + "-" + kind
  }

  predicate NoHyphen(s: string)
  {
    forall i :: 0 <= i < |s| ==> s[i] != '-'
  }

  /** Where the identity, the separator and the category sit inside a key. */
  lemma KeyParts(id: string, kind: string)
    ensures KeyOf(id, kind)[..|id|] == id
    ensures KeyOf(id, kind)[|id|] == '-'
    ensures KeyOf(id, kind)[|id| + 1..] == kind
  {
  }

  /** Identities may contain hyphens, so the key determines the pair only
      because the category names do not. */
  lemma {:induction false} KeyInjective(id1: string, kind1: string, id2: string, kind2: string)
    requires NoHyphen(kind1) && NoHyphen(kind2)
    ensures KeyOf(id1, kind1) == KeyOf(id2, kind2) <==> id1 == id2 && kind1 == kind2
  {
    var s1, s2 := KeyOf(id1, kind1), KeyOf(id2, kind2);
    if s1 == s2 {
      KeyParts(id1, kind1);
      KeyParts(id2, kind2);
      if |kind1| != |kind2| {
        // the separator of the key with the shorter category would lie inside the longer one
        assert false;
      }
    }
  }

  /** Without that assumption two different vehicles share one key. */
  lemma KeyCollision()
    ensures Vehicle("A-B", "C") != Vehicle("A", "B-C")
    ensures KeyOf("A-B", "C") == KeyOf("A", "B-C")
  {
  }

  /** The source's own categories satisfy the assumption of KeyInjective. */
  lemma CategoriesHaveNoHyphen(id: string)
    ensures NoHyphen(Bicycle(id).kind) && NoHyphen(Car(id).kind) && NoHyphen(Scooter(id).kind)
  {
  }
}
