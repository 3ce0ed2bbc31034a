/** The administrative form of a policy: its grant keys as one sorted list. */
module PolicyRepresentations {
  import opened Policies
  import opened Ordering

  datatype Representation = Representation(name: string, version: int, revision: int, grants: seq<string>,
                                           git: GitPolicy)

  /** Some enumeration of a set, without repetitions. */
  ghost function Listed(keys: set<string>): (r: seq<string>)
    ensures multiset(r) == multiset(keys)
  {
    if keys == {} then []
    else
      var k :| k in keys;
      assert keys == (keys - {k}) + {k};
      [k] + Listed(keys - {k})
  }

  ghost function Represent(policy: Policy, revision: int): Representation {
    Representation(policy.name, policy.version, revision, Sort(Listed(policy.grants.Keys)), policy.git)
  }

  function Decoded(r: Representation): Policy {
    Policy(r.name, r.version, map grant | grant in r.grants :: true, r.git)
  }

  /** The result does not depend on the order in which the grants are visited. */
  method NewPolicyRepresentation(policy: Policy, revision: int) returns (r: Representation)
    ensures r == Represent(policy, revision)
  {
    var grants: seq<string> := [];
    var pending := policy.grants.Keys;
    while pending != {}
      invariant pending <= policy.grants.Keys
      invariant multiset(grants) == multiset(policy.grants.Keys - pending)
      decreases pending
    {
      var grant :| grant in pending;
      grants := grants + [grant];
      assert policy.grants.Keys - (pending - {grant}) == (policy.grants.Keys - pending) + {grant};
      pending := pending - {grant};
    }
    assert policy.grants.Keys - pending == policy.grants.Keys;
    SortIsOrderFree(grants, Listed(policy.grants.Keys));
    return Representation(policy.name, policy.version, revision, Sort(grants), policy.git);
  }

  method DecodePolicy(r: Representation) returns (policy: Policy)
    ensures policy == Decoded(r)
  {
    var grants: map<string, bool> := map[];
    for i := 0 to |r.grants|
      invariant grants == map grant | grant in r.grants[..i] :: true
    {
      grants := grants[r.grants[i] := true];
      assert r.grants[..i + 1] == r.grants[..i] + [r.grants[i]];
    }
    assert r.grants[..|r.grants|] == r.grants;
    return Policy(r.name, r.version, grants, r.git);
  }

  lemma RepresentLists(policy: Policy, revision: int)
    ensures forall grant :: grant in Represent(policy, revision).grants <==> grant in policy.grants
    ensures Sorted(Represent(policy, revision).grants)
    ensures multiset(Represent(policy, revision).grants) == multiset(policy.grants.Keys)
  {
    var grants := Represent(policy, revision).grants;
    SortSorts(Listed(policy.grants.Keys));
    assert forall grant :: grant in grants <==> grant in multiset(grants);
    assert forall grant :: grant in multiset(policy.grants.Keys) <==> grant in policy.grants.Keys;
  }

  /** Decoding gives the policy back exactly when none of its grants is switched off. */
  lemma DecodeRepresent(policy: Policy, revision: int)
    ensures Decoded(Represent(policy, revision)) == policy <==>
            forall grant :: grant in policy.grants ==> policy.grants[grant]
  {
    RepresentLists(policy, revision);
    assert Decoded(Represent(policy, revision)).grants.Keys == policy.grants.Keys;
    if forall grant :: grant in policy.grants ==> policy.grants[grant] {
      assert Decoded(Represent(policy, revision)).grants == policy.grants;
    }
  }

  /** Two supported policies with the same representation are the same policy. */
  lemma RepresentIsInjective(a: Policy, b: Policy, r: int, s: int)
    requires ValidPolicy(a) && ValidPolicy(b)
    requires Represent(a, r) == Represent(b, s)
    ensures a == b && r == s
  {
    DecodeRepresent(a, r);
    DecodeRepresent(b, s);
  }
}
