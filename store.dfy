/**
 * The `dataMap` of `getStaticProps` (pages/index.tsx): a JavaScript `Map` from video
 * identifier to video. Its keys iterate in the order they were first set, and setting a key
 * that is already present replaces the value and keeps the key's place.
 */
module Store {
  import opened Wrappers
  import opened Videos

  datatype Store = Store(order: seq<string>, entries: map<string, Record>)

  const EMPTY := Store([], map[])

  /** Each key once in `order`, `order` lists exactly the keys, and each video is filed under its own id. */
  ghost predicate Valid(st: Store) {
    && (forall i, j :: 0 <= i < j < |st.order| ==> st.order[i] != st.order[j])
    && (forall k :: k in st.entries <==> k in st.order)
    && (forall k :: k in st.entries ==> st.entries[k].id == k)
  }

  /** `dataMap.set(element.id, element)`. */
  function Set(st: Store, r: Record): (st': Store)
    ensures st'.entries == st.entries[r.id := r]
    ensures st.order <= st'.order && |st'.order| <= |st.order| + 1
  {
    if r.id in st.entries then Store(st.order, st.entries[r.id := r])
    else Store(st.order + [r.id], st.entries[r.id := r])
  }

  /** Setting a video keeps the map well formed. */
  lemma SetValid(st: Store, r: Record)
    requires Valid(st)
    ensures Valid(Set(st, r))
  {
  }

  /** `Array.from(dataMap.values())`: the videos in key order. */
  function Values(st: Store): (vs: seq<Record>)
    requires Valid(st)
    ensures |vs| == |st.order|
    ensures forall i :: 0 <= i < |vs| ==> vs[i] == st.entries[st.order[i]]
    ensures forall r: Record :: r in vs <==> r.id in st.entries && st.entries[r.id] == r
    ensures forall i, j :: 0 <= i < j < |vs| ==> vs[i].id != vs[j].id
  {
    var vs := seq(|st.order|, i requires 0 <= i < |st.order| => st.entries[st.order[i]]);
    assert forall r: Record :: r.id in st.entries && st.entries[r.id] == r ==> r in vs by {
      forall r: Record | r.id in st.entries && st.entries[r.id] == r
        ensures r in vs
      {
        var i :| 0 <= i < |st.order| && st.order[i] == r.id;
        assert vs[i] == r;
      }
    }
    vs
  }

  /** The videos set one after another, in the order of `rs`, starting from `st`. */
  function SetAll(st: Store, rs: seq<Record>): (st': Store)
    ensures st.order <= st'.order && |st'.order| <= |st.order| + |rs|
    ensures st.entries.Keys <= st'.entries.Keys
  {
    if rs == [] then st else Set(SetAll(st, rs[..|rs| - 1]), rs[|rs| - 1])
  }

  /** The last video in `rs` with identifier `id`, if any: the reference for "last write wins". */
  function LastSet(rs: seq<Record>, id: string): (r: Option<Record>)
    ensures r.None? <==> forall i :: 0 <= i < |rs| ==> rs[i].id != id
    ensures r.Some? ==>
              r.value.id == id &&
              exists i :: 0 <= i < |rs| && rs[i] == r.value && forall j :: i < j < |rs| ==> rs[j].id != id
  {
    if rs == [] then None
    else if rs[|rs| - 1].id == id then Some(rs[|rs| - 1])
    else LastSet(rs[..|rs| - 1], id)
  }

  /**
   * After setting every video of `rs` into an empty map, the map holds exactly the ids that
   * occur in `rs`, each with the last video set for it.
   */
  lemma {:induction false} SetAllLastWins(rs: seq<Record>)
    ensures Valid(SetAll(EMPTY, rs))
    ensures forall id :: id in SetAll(EMPTY, rs).entries <==> LastSet(rs, id).Some?
    ensures forall id :: id in SetAll(EMPTY, rs).entries ==> SetAll(EMPTY, rs).entries[id] == LastSet(rs, id).value
  {
    if rs != [] {
      SetAllLastWins(rs[..|rs| - 1]);
      SetValid(SetAll(EMPTY, rs[..|rs| - 1]), rs[|rs| - 1]);
    }
  }

  /** The ids of `rs` in the order of their first occurrence. */
  function FirstIds(rs: seq<Record>): (ids: seq<string>)
    ensures forall i, j :: 0 <= i < j < |ids| ==> ids[i] != ids[j]
    ensures forall id :: id in ids <==> exists i :: 0 <= i < |rs| && rs[i].id == id
  {
    if rs == [] then []
    else
      var ids := FirstIds(rs[..|rs| - 1]);
      if rs[|rs| - 1].id in ids then ids else ids + [rs[|rs| - 1].id]
  }

  /**
   * The reference for `Array.from(dataMap.values())` after filing `rs`: for each id, in order
   * of first occurrence, the last video filed under it.
   */
  function Latest(rs: seq<Record>): (vs: seq<Record>)
    ensures |vs| == |FirstIds(rs)|
    ensures forall i :: 0 <= i < |vs| ==> LastSet(rs, FirstIds(rs)[i]) == Some(vs[i])
  {
    var ids := FirstIds(rs);
    assert forall i :: 0 <= i < |ids| ==> LastSet(rs, ids[i]).Some? by {
      forall i | 0 <= i < |ids|
        ensures LastSet(rs, ids[i]).Some?
      {
        assert ids[i] in ids;
      }
    }
    seq(|ids|, i requires 0 <= i < |ids| => LastSet(rs, ids[i]).value)
  }

  /** The map's keys iterate in the order in which the ids were first set. */
  lemma {:induction false} SetAllOrder(rs: seq<Record>)
    ensures SetAll(EMPTY, rs).order == FirstIds(rs)
  {
    if rs != [] {
      SetAllOrder(rs[..|rs| - 1]);
      SetAllLastWins(rs[..|rs| - 1]);
    }
  }

  /** The values of the map built from `rs` are `Latest(rs)`, in that order. */
  lemma ValuesInFirstOrder(rs: seq<Record>)
    ensures Valid(SetAll(EMPTY, rs))
    ensures Values(SetAll(EMPTY, rs)) == Latest(rs)
  {
    SetAllLastWins(rs);
    SetAllOrder(rs);
  }
}
