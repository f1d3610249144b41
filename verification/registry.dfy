/**
 * The connection collection of the relay worker, a JavaScript `Set` of ports. A `Set`
 * iterates in first-insertion order, so it is modelled as a sequence without duplicates.
 */
module Registry {
  import opened Messages

  /** No port occurs twice. */
  predicate NoDup(s: seq<PortId>)
  {
    forall i, j :: 0 <= i < j < |s| ==> s[i] != s[j]
  }

  /** `connections.add(port)`: a port already present keeps its place and nothing changes. */
  function Add(s: seq<PortId>, p: PortId): (r: seq<PortId>)
    ensures p in r
    ensures forall q :: q in r <==> q in s || q == p
    ensures p in s ==> r == s
    ensures p !in s ==> |r| == |s| + 1 && r[..|s|] == s && r[|s|] == p
    ensures NoDup(s) ==> NoDup(r)
  {
    if p in s then s else s + [p]
  }

  /**
   * The ports of `s` that are not in `dropped`, in their order in `s`. `connections.delete`
   * is `Without(s, {port})`.
   */
  function Without(s: seq<PortId>, dropped: set<PortId>): (r: seq<PortId>)
    ensures forall q :: q in r <==> q in s && q !in dropped
    ensures |r| <= |s|
    decreases |s|
  {
    if s == [] then []
    else if s[0] in dropped then Without(s[1..], dropped)
    else [s[0]] + Without(s[1..], dropped)
  }

  /** Filtering never introduces a duplicate. */
  lemma {:induction false} WithoutNoDup(s: seq<PortId>, dropped: set<PortId>)
    requires NoDup(s)
    ensures NoDup(Without(s, dropped))
    decreases |s|
  {
    if s != [] {
      assert NoDup(s[1..]);
      WithoutNoDup(s[1..], dropped);
      if s[0] !in dropped {
        assert s[0] !in s[1..];
        assert s[0] !in Without(s[1..], dropped);
      }
    }
  }

  /** Filtering a concatenation filters each part: the survivors keep their relative order. */
  lemma {:induction false} WithoutConcat(a: seq<PortId>, b: seq<PortId>, dropped: set<PortId>)
    ensures Without(a + b, dropped) == Without(a, dropped) + Without(b, dropped)
    decreases |a|
  {
    if a == [] {
      assert a + b == b;
    } else {
      assert (a + b)[0] == a[0];
      assert (a + b)[1..] == a[1..] + b;
      WithoutConcat(a[1..], b, dropped);
    }
  }

  /** Dropping ports that are not there changes nothing. */
  lemma {:induction false} WithoutAbsent(s: seq<PortId>, dropped: set<PortId>)
    requires forall i :: 0 <= i < |s| ==> s[i] !in dropped
    ensures Without(s, dropped) == s
    decreases |s|
  {
    if s != [] {
      assert s[0] !in dropped;
      WithoutAbsent(s[1..], dropped);
      assert s == [s[0]] + s[1..];
    }
  }

  /** Removal is idempotent: a second `delete` of the same ports is a no-op. */
  lemma WithoutTwice(s: seq<PortId>, dropped: set<PortId>)
    ensures Without(Without(s, dropped), dropped) == Without(s, dropped)
  {
    var once := Without(s, dropped);
    assert forall i :: 0 <= i < |once| ==> once[i] in once;
    WithoutAbsent(once, dropped);
  }

  /**
   * In a collection without duplicates, each port that is not dropped occurs in the filtered
   * sequence exactly once, and a dropped or absent port not at all.
   */
  lemma {:induction false} OccursOnce(s: seq<PortId>, dropped: set<PortId>, p: PortId)
    requires NoDup(s)
    ensures multiset(Without(s, dropped))[p] == if p in s && p !in dropped then 1 else 0
    decreases |s|
  {
    if s != [] {
      var rest := s[1..];
      assert NoDup(rest);
      OccursOnce(rest, dropped, p);
      assert s == [s[0]] + rest;
      if s[0] == p {
        assert p !in rest;
      }
    }
  }
}
