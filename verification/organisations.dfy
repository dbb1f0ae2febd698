/**
 * Organisation enumeration (GetOrgs): every organisation gets a channel at
 * its path with the first '/' replaced by '.', and only the last one listed
 * becomes the active organisation.
 */
module Organisations {
  import opened Wrappers
  import opened JsText
  import opened ObjectDb

  datatype Org = Org(path: string, name: Value)

  /** `org.path.replace("/", ".")`: only the first slash becomes a dot. */
  function OrgNodeId(path: string): string
  {
    ReplaceFirst(path, '/', '.')
  }

  /** The channel nodes created for the listed organisations, in order. */
  function OrgListOps(orgs: seq<Org>): seq<Op>
  {
    if orgs == [] then [] else OrgListOps(orgs[..|orgs| - 1]) + [Ensure(OrgNodeId(orgs[|orgs| - 1].path), Channel)]
  }

  /** The iteration's test for its `index` argument: only the last index activates its organisation. */
  predicate Activated(orgs: seq<Org>, index: nat)
  {
    index == |orgs| - 1
  }

  /**
   * The organisation that is activated: the one whose index passes the
   * iteration's test. Exactly one index passes when the list is not empty,
   * and none when it is.
   */
  function ActiveOrg(orgs: seq<Org>): (r: Option<Org>)
    ensures r.Some? <==> exists i :: 0 <= i < |orgs| && Activated(orgs, i)
    ensures forall i :: 0 <= i < |orgs| && Activated(orgs, i) ==> r == Some(orgs[i])
  {
    if orgs == [] then None
    else
      assert Activated(orgs, |orgs| - 1);
      Some(orgs[|orgs| - 1])
  }

  /** Every listed organisation has its node afterwards, existing nodes are kept and no state changes. */
  lemma {:induction false} OrgNodesCreated(db: Db, orgs: seq<Org>)
    ensures forall i :: 0 <= i < |orgs| ==> OrgNodeId(orgs[i].path) in Apply(db, OrgListOps(orgs)).objects
    ensures forall k :: k in db.objects ==>
      (k in Apply(db, OrgListOps(orgs)).objects && Apply(db, OrgListOps(orgs)).objects[k] == db.objects[k])
    ensures Apply(db, OrgListOps(orgs)).states == db.states
  {
    if orgs != [] {
      var init := orgs[..|orgs| - 1];
      var op := Ensure(OrgNodeId(orgs[|orgs| - 1].path), Channel);
      OrgNodesCreated(db, init);
      ApplySnoc(db, OrgListOps(init), op);
      forall i | 0 <= i < |orgs| - 1 ensures OrgNodeId(orgs[i].path) in Apply(db, OrgListOps(orgs)).objects {
        assert init[i] == orgs[i];
      }
    }
  }

  /** Behind a first segment without slashes, the first slash becomes a dot and the rest is kept as it is. */
  lemma OrgNodeIdFirstSlash(a: string, b: string)
    requires '/' !in a
    ensures OrgNodeId(a + "/" + b) == a + "." + b
  {
    var path := a + "/" + b;
    assert path[|a|] == '/';
    assert forall k :: 0 <= k < |a| ==> path[k] == a[k];
    assert IndexOf(path, '/') == Some(|a|);
    var r := OrgNodeId(path);
    var e := a + "." + b;
    assert |r| == |e|;
    forall k | 0 <= k < |r| ensures r[k] == e[k] {
      if k < |a| {
        assert r[k] == path[k];
      } else if k > |a| {
        assert r[k] == path[k];
      }
    }
  }

  /** The node id has one slash less than the path when the path has one, and is the path otherwise. */
  lemma OrgNodeIdSlashes(path: string)
    ensures '/' !in path ==> OrgNodeId(path) == path
    ensures '/' in path ==> Count(OrgNodeId(path), '/') == Count(path, '/') - 1
  {
    if '/' in path {
      ReplaceFirstRemovesOne(path, '/', '.');
    }
  }
}
