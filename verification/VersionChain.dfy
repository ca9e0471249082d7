/** The stored versions always form one finite chain that ends in the single current baseline. */
module VersionChain {
  import opened Basics
  import opened Store
  import opened Connections
  import opened Adrs
  import opened Versions

  /** Every version once, each superseded by the next, the last one current. */
  ghost predicate ChainOf(order: seq<string>, versions: map<string, Version>) {
    && (forall i :: 0 <= i < |order| ==> order[i] in versions)
    && (forall i, j :: 0 <= i < j < |order| ==> order[i] != order[j])
    && (forall v <- versions :: v in order && versions[v].version == v)
    && (forall i :: 0 <= i < |order| ==> LinkAt(order, versions, i))
  }

  predicate LinkAt(order: seq<string>, versions: map<string, Version>, i: nat)
    requires i < |order| && order[i] in versions
  {
    var v := versions[order[i]];
    if i + 1 < |order| then v.supersededBy == Some(order[i + 1]) && !v.isCurrent
    else v.supersededBy == None && v.isCurrent
  }

  ghost predicate LinearChain(versions: map<string, Version>) {
    exists order :: ChainOf(order, versions)
  }

  /** What is on record stays on record: nothing but the place in the chain is ever rewritten. */
  ghost predicate Frozen(before: map<string, Version>, after: map<string, Version>) {
    forall v <- before ::
      && v in after && after[v].version == before[v].version && after[v].baseline == before[v].baseline
      && after[v].rules == before[v].rules && after[v].createdAt == before[v].createdAt
      && (before[v].supersededBy.Some? ==> after[v] == before[v])
  }

  lemma FrozenTransitive(a: map<string, Version>, b: map<string, Version>, c: map<string, Version>)
    requires Frozen(a, b) && Frozen(b, c)
    ensures Frozen(a, c)
  {
    forall v | v in a
      ensures v in c && c[v].baseline == a[v].baseline
    {
      assert v in b;
    }
  }

  /** The current versions are the last of the chain, or none. */
  lemma CurrentIsLast(order: seq<string>, versions: map<string, Version>)
    requires ChainOf(order, versions)
    ensures CurrentVersions(versions) == if order == [] then {} else {order[|order| - 1]}
  {
    forall v | v in CurrentVersions(versions)
      ensures order != [] && v == order[|order| - 1]
    {
      var i :| 0 <= i < |order| && order[i] == v;
      assert LinkAt(order, versions, i);
    }
    if order != [] { assert LinkAt(order, versions, |order| - 1); }
  }

  /** A version that is current is the last of the chain. */
  lemma CurrentPosition(order: seq<string>, versions: map<string, Version>, v: string)
    requires ChainOf(order, versions) && v in versions && versions[v].isCurrent
    ensures order != [] && v == order[|order| - 1]
  {
    CurrentIsLast(order, versions);
    assert v in CurrentVersions(versions);
  }

  /** No two versions are superseded by the same one. */
  lemma OnePredecessor(order: seq<string>, versions: map<string, Version>, u: string, v: string)
    requires ChainOf(order, versions) && u in versions && v in versions
    requires versions[u].supersededBy.Some? && versions[u].supersededBy == versions[v].supersededBy
    ensures u == v
  {
    var i :| 0 <= i < |order| && order[i] == u;
    var j :| 0 <= j < |order| && order[j] == v;
    assert LinkAt(order, versions, i) && LinkAt(order, versions, j);
    assert order[i + 1] == order[j + 1];
  }

  /** Following the chain from any version ends at the current one. */
  ghost function Latest(order: seq<string>, versions: map<string, Version>, v: string): (last: string)
    requires ChainOf(order, versions) && v in versions
    ensures last in versions && CurrentVersions(versions) == {last}
    decreases |order| - Position(order, v)
  {
    var i := Position(order, v);
    CurrentIsLast(order, versions);
    assert LinkAt(order, versions, i);
    if i + 1 < |order| then
      DistinctPosition(order, i + 1);
      Latest(order, versions, versions[v].supersededBy.value)
    else v
  }

  function Position(order: seq<string>, v: string): (i: nat)
    requires v in order
    ensures i < |order| && order[i] == v
  {
    if order[|order| - 1] == v then |order| - 1 else Position(order[..|order| - 1], v)
  }

  lemma DistinctPosition(order: seq<string>, i: nat)
    requires i < |order| && forall j, k :: 0 <= j < k < |order| ==> order[j] != order[k]
    ensures Position(order, order[i]) == i
  {
  }

  /** A successful roll-over either finds everything in place or appends one version to the chain. */
  lemma RollOverExtends(order: seq<string>, db: Db, spec: Version, supersedes: Option<string>) returns (order': seq<string>)
    requires ChainOf(order, db.versions) && spec.isCurrent && spec.supersededBy.None?
    requires RolledOver(db, spec, supersedes).Ok?
    ensures ChainOf(order', RolledOver(db, spec, supersedes).value.versions)
    ensures Frozen(db.versions, RolledOver(db, spec, supersedes).value.versions)
    ensures if spec.version in db.versions then order' == order && RolledOver(db, spec, supersedes).value == db
            else order' == order + [spec.version] && (order != [] ==> supersedes == Some(order[|order| - 1]))
  {
    if spec.version in db.versions {
      order' := order;
    } else {
      order' := order + [spec.version];
      CurrentIsLast(order, db.versions);
      if supersedes.Some? {
        CurrentPosition(order, db.versions, supersedes.value);
        Appended(order, db.versions, spec);
      } else {
        assert order == [];
      }
    }
  }

  /** Retiring the last version in favour of a new one appends it. */
  lemma Appended(order: seq<string>, versions: map<string, Version>, spec: Version)
    requires ChainOf(order, versions) && order != [] && spec.version !in versions
    requires spec.isCurrent && spec.supersededBy.None?
    ensures var last := order[|order| - 1];
            ChainOf(order + [spec.version],
                    versions[last := versions[last].(isCurrent := false, supersededBy := Some(spec.version))][spec.version := spec])
  {
    var order' := order + [spec.version];
    var last := order[|order| - 1];
    var versions' := versions[last := versions[last].(isCurrent := false, supersededBy := Some(spec.version))][spec.version := spec];
    forall i | 0 <= i < |order'|
      ensures order'[i] in versions' && LinkAt(order', versions', i)
    {
      if i < |order| { assert LinkAt(order, versions, i); }
    }
    assert order'[|order|] == spec.version;
    forall v | v in versions'
      ensures v in order' && versions'[v].version == v
    {
      if v in versions { assert v in order; }
    }
  }
}
