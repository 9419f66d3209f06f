/**
  Whether a Python exception is, was caused by, or holds a `NonRetryableError`. Exceptions are
  mutable objects: causes and group members may form cycles.
*/
module ExceptionSearch {
  import opened Common

  type Ref = nat

  /** `members` is absent when the group's `exceptions` cannot be read as a tuple. */
  datatype Exception = Exception(nonRetryable: bool, cause: Option<Ref>, group: bool, members: Option<seq<Ref>>)

  type Heap = map<Ref, Exception>

  predicate Edge(h: Heap, a: Ref, b: Ref) {
    a in h && (h[a].cause == Some(b) || (h[a].group && h[a].members.Some? && b in h[a].members.value))
  }

  ghost predicate Closed(h: Heap) {
    forall a, b | Edge(h, a, b) :: b in h
  }

  /** A chain of causes and members. */
  ghost predicate Path(h: Heap, p: seq<Ref>) {
    p != [] && forall i | 0 <= i < |p| - 1 :: Edge(h, p[i], p[i + 1])
  }

  ghost predicate Reaches(h: Heap, a: Ref, b: Ref) {
    exists p: seq<Ref> :: Path(h, p) && p[0] == a && p[|p| - 1] == b
  }

  lemma ReachesSelf(h: Heap, a: Ref)
    ensures Reaches(h, a, a)
  {
    assert Path(h, [a]) && [a][0] == a;
  }

  lemma ReachesOn(h: Heap, a: Ref, b: Ref, c: Ref)
    requires Reaches(h, a, b) && Edge(h, b, c)
    ensures Reaches(h, a, c)
  {
    var p: seq<Ref> :| Path(h, p) && p[0] == a && p[|p| - 1] == b;
    var q := p + [c];
    assert Path(h, q) && q[0] == a && q[|q| - 1] == c;
  }

  /** What a set closed under edges holds, it holds with everything reachable. */
  lemma {:induction false} ReachesInside(h: Heap, inside: set<Ref>, p: seq<Ref>)
    requires Path(h, p) && p[0] in inside && forall a, b | a in inside && Edge(h, a, b) :: b in inside
    ensures p[|p| - 1] in inside
    decreases |p|
  {
    if |p| > 1 {
      assert Edge(h, p[0], p[1]);
      assert Path(h, p[1..]) by {
        forall i | 0 <= i < |p[1..]| - 1
          ensures Edge(h, p[1..][i], p[1..][i + 1])
        {
          assert Edge(h, p[i + 1], p[i + 2]);
        }
      }
      ReachesInside(h, inside, p[1..]);
    }
  }

  method HoldsNonRetryable(h: Heap, error: Ref) returns (found: bool)
    requires Closed(h) && error in h
    ensures found <==> exists e | e in h :: Reaches(h, error, e) && h[e].nonRetryable
  {
    var seen: set<Ref> := {};
    var pending := [error];
    ReachesSelf(h, error);
    while pending != []
      invariant seen <= h.Keys && error in seen + (set r | r in pending)
      invariant forall r | r in pending :: r in h && Reaches(h, error, r)
      invariant forall a | a in seen :: !h[a].nonRetryable
      invariant forall a, b | a in seen && Edge(h, a, b) :: b in seen || b in pending
      decreases h.Keys - seen, |pending|
    {
      var e := pending[|pending| - 1];
      ghost var before := pending;
      pending := pending[..|pending| - 1];
      assert forall r | r in before :: r == e || r in pending;
      if e in seen {
        continue;
      }
      seen := seen + {e};
      if h[e].nonRetryable {
        return true;
      }
      var more := if h[e].cause.Some? then [h[e].cause.value] else [];
      if h[e].group && h[e].members.Some? {
        more := more + h[e].members.value;
      }
      assert forall r | r in more :: Edge(h, e, r);
      assert forall r | Edge(h, e, r) :: r in more;
      forall r | r in more
        ensures r in h && Reaches(h, error, r)
      {
        ReachesOn(h, error, e, r);
      }
      pending := pending + more;
    }
    forall e | e in h && Reaches(h, error, e)
      ensures !h[e].nonRetryable
    {
      var p: seq<Ref> :| Path(h, p) && p[0] == error && p[|p| - 1] == e;
      ReachesInside(h, seen, p);
    }
    found := false;
  }
}
