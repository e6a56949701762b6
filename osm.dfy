/** Overpass API elements, the node lookup table and way geometry built from node
    references, shared by the OpenStreetMap extraction scripts. */
module Osm {
  import opened Wrappers
  import opened Geo
  import opened Text
  import opened Numbers

  /** An element of an Overpass `out body` / `out center` response. `lat`, `lon`,
      `center` and `nodes` are keys that may be missing; `tags` defaults to `{}`. */
  datatype Element = Element(
    kind: string,
    id: int,
    lat: Option<real>,
    lon: Option<real>,
    center: Option<Pos>,
    tags: map<string, string>,
    nodes: Option<seq<int>>)

  /** `tags.get(k, default)` */
  function TagOr(tags: map<string, string>, k: string, default: string): string {
    if k in tags then tags[k] else default
  }

  /** `tags.get(k) == v`, with a missing key never equal to a string. */
  predicate TagIs(tags: map<string, string>, k: string, v: string) {
    k in tags && tags[k] == v
  }

  /** `{e['id']: e for e in elements if e['type'] == 'node'}`: the last node per id wins. */
  function NodeTable(es: seq<Element>): (t: map<int, Element>)
    ensures forall id :: id in t ==> t[id].kind == "node" && t[id].id == id && t[id] in es
  {
    if es == [] then map[]
    else
      var t := NodeTable(es[..|es| - 1]);
      var e := es[|es| - 1];
      if e.kind == "node" then t[e.id := e] else t
  }

  /** A node id is in the table exactly when some node element carries it. */
  lemma {:induction false} NodeTableDomain(es: seq<Element>, id: int)
    ensures id in NodeTable(es) <==> exists i :: 0 <= i < |es| && es[i].kind == "node" && es[i].id == id
  {
    if es != [] {
      var p := es[..|es| - 1];
      NodeTableDomain(p, id);
      if exists i :: 0 <= i < |p| && p[i].kind == "node" && p[i].id == id {
        var i :| 0 <= i < |p| && p[i].kind == "node" && p[i].id == id;
        assert es[i] == p[i];
      }
      if exists i :: 0 <= i < |es| && es[i].kind == "node" && es[i].id == id {
        var i :| 0 <= i < |es| && es[i].kind == "node" && es[i].id == id;
        if i < |p| { assert p[i] == es[i]; }
      }
    }
  }

  /** Every reference found in the table is a node with both coordinates, as `out skel` and
      `out body` nodes have; `node['lon']` and `node['lat']` raise otherwise. */
  predicate RefsLocated(refs: seq<int>, t: map<int, Element>) {
    forall i :: 0 <= i < |refs| && refs[i] in t ==> t[refs[i]].lat.Some? && t[refs[i]].lon.Some?
  }

  /** `[node['lon'], node['lat']]` */
  function NodePos(t: map<int, Element>, id: int): Pos
    requires id in t && t[id].lat.Some? && t[id].lon.Some?
  {
    Pos(t[id].lon.value, t[id].lat.value)
  }

  /** The positions of every way reference found in the table, in order;
      references to nodes the response lacks are skipped. */
  function Resolved(refs: seq<int>, t: map<int, Element>): (cs: seq<Pos>)
    requires RefsLocated(refs, t)
    ensures |cs| <= |refs|
    ensures (forall i :: 0 <= i < |refs| ==> refs[i] in t) ==> |cs| == |refs|
  {
    if refs == [] then []
    else
      assert RefsLocated(refs[..|refs| - 1], t) by {
        forall i | 0 <= i < |refs| - 1 ensures refs[..|refs| - 1][i] == refs[i] { }
      }
      var p := Resolved(refs[..|refs| - 1], t);
      var r := refs[|refs| - 1];
      if r in t then p + [NodePos(t, r)] else p
  }

  /** With every reference known, the ring is the referenced nodes' positions, position by position. */
  lemma {:induction false} ResolvedAllKnown(refs: seq<int>, t: map<int, Element>, k: nat)
    requires RefsLocated(refs, t)
    requires forall i :: 0 <= i < |refs| ==> refs[i] in t
    requires k < |refs|
    ensures Resolved(refs, t)[k] == NodePos(t, refs[k])
  {
    var p := refs[..|refs| - 1];
    assert RefsLocated(p, t) by {
      forall i | 0 <= i < |p| ensures p[i] == refs[i] { }
    }
    if k < |p| {
      ResolvedAllKnown(p, t, k);
    }
  }

  /** Every resolved position is that of a referenced node. */
  lemma {:induction false} ResolvedFromRefs(refs: seq<int>, t: map<int, Element>, k: nat)
    requires RefsLocated(refs, t)
    requires k < |Resolved(refs, t)|
    ensures exists i :: 0 <= i < |refs| && refs[i] in t && Resolved(refs, t)[k] == NodePos(t, refs[i])
  {
    var p := refs[..|refs| - 1];
    var r := refs[|refs| - 1];
    assert RefsLocated(p, t) by {
      forall i | 0 <= i < |p| ensures p[i] == refs[i] { }
    }
    if k < |Resolved(p, t)| {
      ResolvedFromRefs(p, t, k);
      var i :| 0 <= i < |p| && p[i] in t && Resolved(p, t)[k] == NodePos(t, p[i]);
      assert refs[i] == p[i];
    } else {
      assert refs[|refs| - 1] == r;
    }
  }

  /** The loop `for node_id in element['nodes']: if node_id in nodes: coords.append(...)`. */
  method ResolveRefs(refs: seq<int>, t: map<int, Element>) returns (coords: seq<Pos>)
    requires RefsLocated(refs, t)
    ensures coords == Resolved(refs, t)
  {
    coords := [];
    var i := 0;
    while i < |refs|
      invariant 0 <= i <= |refs|
      invariant RefsLocated(refs[..i], t)
      invariant coords == Resolved(refs[..i], t)
    {
      assert refs[..i + 1][..i] == refs[..i];
      assert RefsLocated(refs[..i + 1], t) by {
        forall j | 0 <= j < i + 1 ensures refs[..i + 1][j] == refs[j] { }
      }
      var r := refs[i];
      if r in t {
        var node := t[r];
        coords := coords + [Pos(node.lon.value, node.lat.value)];
      }
      i := i + 1;
    }
    assert refs[..|refs|] == refs;
  }

  /** `f"{type}_{id}"`, `f"osm_{type}_{id}"` and the like. */
  function KindId(prefix: string, e: Element): string {
    prefix + e.kind + "_" + IntToString(e.id)
  }
}
