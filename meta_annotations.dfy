/**
 * Whether a property is explicitly scalar: some annotation on its getter is
 * `@Scalar` or is (transitively) meta-annotated by `@Scalar`. The search is a
 * depth-first walk of the meta-annotation graph that expands every qualified
 * name at most once, so it ends even when annotations decorate each other.
 */
module MetaAnnotations {
  import opened AptTypes

  /** The qualified names of the annotations that decorate annotation type `n`. */
  function Meta(graph: map<string, seq<string>>, n: string): seq<string>
  {
    if n in graph then graph[n] else []
  }

  /** A walk along meta-annotation edges. */
  ghost predicate IsPath(graph: map<string, seq<string>>, p: seq<string>)
  {
    |p| > 0 && forall i :: 0 <= i < |p| - 1 ==> p[i + 1] in Meta(graph, p[i])
  }

  /** `to` can be reached from `from` through zero or more meta-annotation edges. */
  ghost predicate Reaches(graph: map<string, seq<string>>, from: string, to: string)
  {
    exists p :: IsPath(graph, p) && p[0] == from && p[|p| - 1] == to
  }

  /** Every meta-annotation of `n` is in `s`. */
  ghost predicate ExpandedWithin(graph: map<string, seq<string>>, n: string, s: set<string>)
  {
    forall d :: d in Meta(graph, n) ==> d in s
  }

  lemma ReachesStep(graph: map<string, seq<string>>, n: string, d: string, to: string)
    requires d in Meta(graph, n) && Reaches(graph, d, to)
    ensures Reaches(graph, n, to)
  {
    var p :| IsPath(graph, p) && p[0] == d && p[|p| - 1] == to;
    var q := [n] + p;
    assert forall i :: 0 < i < |q| ==> q[i] == p[i - 1];
    assert IsPath(graph, q);
  }

  /** Every node of a walk that starts inside a set closed under meta-annotation edges stays inside it. */
  lemma {:induction false} PathStaysWithin(graph: map<string, seq<string>>, p: seq<string>, s: set<string>, i: nat)
    requires IsPath(graph, p) && p[0] in s
    requires forall n :: n in s ==> ExpandedWithin(graph, n, s)
    requires i < |p|
    ensures p[i] in s
  {
    if i > 0 {
      PathStaysWithin(graph, p, s, i - 1);
      assert p[i] in Meta(graph, p[i - 1]);
    }
  }

  /** A closed set that holds `from` but not `to` shows that `to` is unreachable. */
  lemma ClosedSetBlocks(graph: map<string, seq<string>>, s: set<string>, from: string, to: string)
    requires from in s && to !in s
    requires forall n :: n in s ==> ExpandedWithin(graph, n, s)
    ensures !Reaches(graph, from, to)
  {
    if Reaches(graph, from, to) {
      var p :| IsPath(graph, p) && p[0] == from && p[|p| - 1] == to;
      PathStaysWithin(graph, p, s, |p| - 1);
    }
  }

  /**
   * The recursive helper `isExplicitScalar(mirror, handledQualifiedNames)`:
   * the shared `HashSet` comes in as `visited` and goes out as `handled`.
   * A `true` answer is a walk to `@Scalar`; a `false` answer leaves every name
   * it added expanded within `handled`, and `@Scalar` not among them.
   */
  method Search(graph: map<string, seq<string>>, qualifiedName: string, visited: set<string>)
    returns (found: bool, handled: set<string>)
    ensures visited + {qualifiedName} <= handled
    ensures found ==> Reaches(graph, qualifiedName, ScalarName)
    ensures !found ==> ScalarName in handled ==> ScalarName in visited
    ensures !found ==> forall n :: n in handled && n !in visited ==> ExpandedWithin(graph, n, handled)
    decreases graph.Keys - visited
  {
    if qualifiedName in visited {
      return false, visited;
    }
    handled := visited + {qualifiedName};
    if qualifiedName == ScalarName {
      assert IsPath(graph, [qualifiedName]);
      return true, handled;
    }
    var deeper := Meta(graph, qualifiedName);
    for i := 0 to |deeper|
      invariant visited + {qualifiedName} <= handled
      invariant deeper != [] ==> qualifiedName in graph.Keys
      invariant forall j :: 0 <= j < i ==> deeper[j] in handled
      invariant ScalarName in handled ==> ScalarName in visited
      invariant forall n :: n in handled && n !in visited && n != qualifiedName ==> ExpandedWithin(graph, n, handled)
    {
      var f, h := Search(graph, deeper[i], handled);
      if f {
        ReachesStep(graph, qualifiedName, deeper[i], ScalarName);
        return true, h;
      }
      forall n | n in handled && n !in visited && n != qualifiedName
        ensures ExpandedWithin(graph, n, h)
      {
        assert ExpandedWithin(graph, n, handled);
      }
      handled := h;
    }
    assert ExpandedWithin(graph, qualifiedName, handled);
    found := false;
  }

  /** A search from one annotation with a fresh set of handled names answers
      exactly whether `@Scalar` is reachable from it. */
  method SearchFresh(graph: map<string, seq<string>>, qualifiedName: string) returns (found: bool)
    ensures found <==> Reaches(graph, qualifiedName, ScalarName)
  {
    var handled;
    found, handled := Search(graph, qualifiedName, {});
    if !found {
      ClosedSetBlocks(graph, handled, qualifiedName, ScalarName);
    }
  }

  /**
   * `isExplicitScalar()`: each annotation on the getter is searched with a
   * fresh set of handled names; the answer is whether `@Scalar` is reachable
   * from any of them.
   */
  method IsExplicitScalar(graph: map<string, seq<string>>, names: seq<string>) returns (r: bool)
    ensures r <==> exists k :: 0 <= k < |names| && Reaches(graph, names[k], ScalarName)
  {
    r := false;
    var i := 0;
    while i < |names| && !r
      invariant i <= |names|
      invariant r ==> 0 < i && Reaches(graph, names[i - 1], ScalarName)
      invariant !r ==> forall j :: 0 <= j < i ==> !Reaches(graph, names[j], ScalarName)
    {
      r := SearchFresh(graph, names[i]);
      i := i + 1;
    }
  }
}
