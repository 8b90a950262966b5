/** Taking the members of a set one by one. */
module Listings {

  /** The members of a set in some order, each once: the order in which Redis happens to list keys. */
  method Listing<T(==)>(keys: set<T>) returns (listing: seq<T>)
    ensures |listing| == |keys|
    ensures forall k :: k in keys <==> k in listing
    ensures forall i, j :: 0 <= i < j < |listing| ==> listing[i] != listing[j]
  {
    listing := [];
    var left := keys;
    while left != {}
      invariant left <= keys && forall k :: k in keys - left <==> k in listing
      invariant |listing| + |left| == |keys|
      invariant forall i, j :: 0 <= i < j < |listing| ==> listing[i] != listing[j]
      decreases left
    {
      var key :| key in left;
      assert key !in listing;
      listing, left := listing + [key], left - {key};
    }
  }

  /** Some member, always the same one. */
  ghost function AnyOf<T>(members: set<T>): (member: T)
    requires members != {}
    ensures member in members
  {
    var member :| member in members;
    member
  }
}
