/** Route list construction (src/app/route.types.ts): a component mounted at several paths,
    and route groups merged into one list. The component is any value of type `C`. */
module RouteTypes {

  datatype AppRoute<C> = AppRoute(path: string, component: C)

  /** withPaths: one route per path, in order, each with the component. */
  function WithPaths<C>(component: C, paths: seq<string>): (r: seq<AppRoute<C>>)
    ensures |r| == |paths|
    ensures forall i :: 0 <= i < |paths| ==> r[i] == AppRoute(paths[i], component)
  {
    seq(|paths|, i requires 0 <= i < |paths| => AppRoute(paths[i], component))
  }

  /** The paths of a route list. */
  function Paths<C>(routes: seq<AppRoute<C>>): (r: seq<string>)
    ensures |r| == |routes|
    ensures forall i :: 0 <= i < |routes| ==> r[i] == routes[i].path
  {
    seq(|routes|, i requires 0 <= i < |routes| => routes[i].path)
  }

  /** withPaths keeps the paths it was given and puts the one component everywhere. */
  lemma WithPathsPaths<C>(component: C, paths: seq<string>)
    ensures Paths(WithPaths(component, paths)) == paths
    ensures forall r :: r in WithPaths(component, paths) ==> r.component == component
    ensures paths == [] ==> WithPaths(component, paths) == []
  {
  }

  /** mergeRoutes: the groups concatenated in order. */
  function MergeRoutes<C>(groups: seq<seq<AppRoute<C>>>): (r: seq<AppRoute<C>>)
    ensures groups == [] ==> r == []
  {
    if groups == [] then [] else groups[0] + MergeRoutes(groups[1..])
  }

  function TotalLength<C>(groups: seq<seq<AppRoute<C>>>): nat
  {
    if groups == [] then 0 else |groups[0]| + TotalLength(groups[1..])
  }

  /** The merged list is as long as all the groups together. */
  lemma {:induction false} MergeLength<C>(groups: seq<seq<AppRoute<C>>>)
    ensures |MergeRoutes(groups)| == TotalLength(groups)
  {
    if groups != [] {
      MergeLength(groups[1..]);
    }
  }

  /** Merging two lists of groups is merging each and concatenating. */
  lemma {:induction false} MergeAppend<C>(a: seq<seq<AppRoute<C>>>, b: seq<seq<AppRoute<C>>>)
    ensures MergeRoutes(a + b) == MergeRoutes(a) + MergeRoutes(b)
  {
    if a == [] {
      assert a + b == b;
    } else {
      assert (a + b)[1..] == a[1..] + b;
      MergeAppend(a[1..], b);
    }
  }

  /** A route is in the merged list exactly when it is in one of the groups. */
  lemma {:induction false} MergeMembers<C>(groups: seq<seq<AppRoute<C>>>, route: AppRoute<C>)
    ensures route in MergeRoutes(groups) <==> exists g :: 0 <= g < |groups| && route in groups[g]
  {
    if groups != [] {
      MergeMembers(groups[1..], route);
      if exists g :: 0 <= g < |groups| && route in groups[g] {
        var g :| 0 <= g < |groups| && route in groups[g];
        if g > 0 {
          assert route in groups[1..][g - 1];
        }
      }
      if exists g :: 0 <= g < |groups[1..]| && route in groups[1..][g] {
        var g :| 0 <= g < |groups[1..]| && route in groups[1..][g];
        assert route in groups[g + 1];
      }
    }
  }
}
