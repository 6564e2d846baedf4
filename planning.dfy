/** The planning list of the page script as values: the `addressList` entries
    and the parallel `markers` positions, what `addToList`/`addToListFromURL`
    and `removeFromList` do to them, and what `updateCenterOfInterest` does to
    the center marker, the search radius and the search circle. */
module Planning {
  import opened JsText
  import opened Geometry

  /** The `type` field of an entry: 'address' or 'poi'. */
  datatype Kind = AddressKind | PoiKind

  /** One record of `addressList`. */
  datatype Entry = Entry(
    formattedAddress: Option<string>,
    lat: real,
    lng: real,
    id: real,
    placeName: Option<string>,
    kind: Kind)
  {
    function Position(): Pos {
      Pos(lat, lng)
    }
  }

  function Positions(es: seq<Entry>): (ps: seq<Pos>)
    ensures |ps| == |es|
    ensures forall i :: 0 <= i < |es| ==> ps[i] == es[i].Position()
  {
    seq(|es|, i requires 0 <= i < |es| => es[i].Position())
  }

  /** `addressList.some(addr => addr.formatted_address === formattedAddress)` */
  predicate HasAddress(es: seq<Entry>, address: Option<string>) {
    exists i :: 0 <= i < |es| && es[i].formattedAddress == address
  }

  predicate DistinctAddresses(es: seq<Entry>) {
    forall i, j :: 0 <= i < j < |es| ==> es[i].formattedAddress != es[j].formattedAddress
  }

  predicate DistinctIds(es: seq<Entry>) {
    forall i, j :: 0 <= i < j < |es| ==> es[i].id != es[j].id
  }

  /** The index of the entry `addressList.find(addr => addr.id === id)`
      returns, -1 when it returns `undefined`. */
  function IndexOfId(es: seq<Entry>, id: real): (k: int)
    ensures -1 <= k < |es|
    ensures k == -1 <==> forall j :: 0 <= j < |es| ==> es[j].id != id
    ensures k >= 0 ==> es[k].id == id && forall j :: 0 <= j < k ==> es[j].id != id
  {
    if |es| == 0 then -1
    else if es[0].id == id then 0
    else
      var k := IndexOfId(es[1..], id);
      assert forall j :: 1 <= j < |es| ==> es[j] == es[1..][j - 1];
      if k == -1 then -1 else k + 1
  }

  /** `addressList.filter(addr => addr.id !== id)`: the entries without that
      id, in their original order. */
  function WithoutId(es: seq<Entry>, id: real): (r: seq<Entry>)
    ensures |r| <= |es|
    ensures forall e :: e in r <==> e in es && e.id != id
    ensures (exists j :: 0 <= j < |es| && es[j].id == id) ==> |r| < |es|
  {
    if |es| == 0 then []
    else
      var rest := WithoutId(es[1..], id);
      assert forall e :: e in es <==> e == es[0] || e in es[1..];
      if es[0].id != id then [es[0]] + rest
      else rest
  }

  /** The filter keeps the order of the entries: filtering a concatenation
      is concatenating the filtered parts. */
  lemma {:induction false} WithoutIdConcat(xs: seq<Entry>, ys: seq<Entry>, id: real)
    ensures WithoutId(xs + ys, id) == WithoutId(xs, id) + WithoutId(ys, id)
    decreases |xs|
  {
    if |xs| == 0 {
      assert xs + ys == ys;
    } else {
      assert (xs + ys)[0] == xs[0] && (xs + ys)[1..] == xs[1..] + ys;
      WithoutIdConcat(xs[1..], ys, id);
    }
  }

  /** The tolerance, in degrees, within which a marker is taken to belong to an entry. */
  const MarkerTolerance: real := 0.0001

  function Abs(x: real): real {
    if x < 0.0 then -x else x
  }

  predicate Near(marker: Pos, p: Pos) {
    Abs(marker.lat - p.lat) < MarkerTolerance && Abs(marker.lng - p.lng) < MarkerTolerance
  }

  /** The `markers.findIndex(...)` of `removeFromList`: the first marker within
      the tolerance of `p` in both coordinates, -1 when there is none. */
  function IndexOfNear(ms: seq<Pos>, p: Pos): (k: int)
    ensures -1 <= k < |ms|
    ensures k == -1 <==> forall j :: 0 <= j < |ms| ==> !Near(ms[j], p)
    ensures k >= 0 ==> Near(ms[k], p) && forall j :: 0 <= j < k ==> !Near(ms[j], p)
  {
    if |ms| == 0 then -1
    else if Near(ms[0], p) then 0
    else
      var k := IndexOfNear(ms[1..], p);
      assert forall j :: 1 <= j < |ms| ==> ms[j] == ms[1..][j - 1];
      if k == -1 then -1 else k + 1
  }

  /** `markers.splice(k, 1)` */
  function RemoveAt<T>(xs: seq<T>, k: int): seq<T>
    requires 0 <= k < |xs|
  {
    xs[..k] + xs[k + 1..]
  }

  /** The two parallel lists of the page. */
  datatype Lists = Lists(entries: seq<Entry>, markers: seq<Pos>)

  /** What `addToList` and `addToListFromURL` do to the lists: nothing when the
      formatted address is already planned, otherwise append the entry and a
      marker at its position. */
  function AddEntry(l: Lists, e: Entry): (r: Lists)
    ensures HasAddress(r.entries, e.formattedAddress)
    ensures forall a :: HasAddress(l.entries, a) ==> HasAddress(r.entries, a)
    ensures |r.entries| <= |l.entries| + 1 && |r.markers| <= |l.markers| + 1
  {
    if HasAddress(l.entries, e.formattedAddress) then l
    else
      var es := l.entries + [e];
      assert es[|l.entries|] == e;
      assert forall i :: 0 <= i < |l.entries| ==> es[i] == l.entries[i];
      Lists(es, l.markers + [e.Position()])
  }

  /** What `removeFromList` does to the lists: nothing for an unknown id,
      otherwise drop the entries with that id and the first marker near the
      first such entry, if any. */
  function RemoveEntry(l: Lists, id: real): (r: Lists)
    ensures forall e :: e in r.entries <==> e in l.entries && e.id != id
    ensures |r.entries| <= |l.entries|
    ensures |l.markers| - 1 <= |r.markers| <= |l.markers|
  {
    var k := IndexOfId(l.entries, id);
    if k == -1 then l
    else
      var m := IndexOfNear(l.markers, l.entries[k].Position());
      Lists(WithoutId(l.entries, id), if m == -1 then l.markers else RemoveAt(l.markers, m))
  }

  /** A call of one of the three list operations. */
  datatype ListOp = AddOp(e: Entry) | AddFromUrlOp(e: Entry) | RemoveOp(id: real)

  function Apply(l: Lists, op: ListOp): (r: Lists)
    ensures |r.entries| <= |l.entries| + 1
    ensures op.RemoveOp? ==> |r.entries| <= |l.entries|
    ensures !op.RemoveOp? ==> HasAddress(r.entries, op.e.formattedAddress)
  {
    match op
    case AddOp(e) => AddEntry(l, e)
    case AddFromUrlOp(e) => AddEntry(l, e)
    case RemoveOp(id) => RemoveEntry(l, id)
  }

  /** The lists after the calls `ops`, in order. */
  function Replay(l: Lists, ops: seq<ListOp>): (r: Lists)
    ensures |r.entries| <= |l.entries| + |ops|
    decreases |ops|
  {
    if |ops| == 0 then l else Replay(Apply(l, ops[0]), ops[1..])
  }

  /** What every sequence of calls keeps: the planned addresses are pairwise
      distinct and no entry lacks a marker slot. */
  predicate ListsInvariant(l: Lists) {
    DistinctAddresses(l.entries) && |l.entries| <= |l.markers|
  }

  // ---------------------------------------------------------------------
  // Properties of the list operations
  // ---------------------------------------------------------------------

  /** A duplicate address changes neither list; a new one appends exactly one
      entry and one marker and keeps everything before them. */
  lemma AddEntryEffect(l: Lists, e: Entry)
    ensures HasAddress(l.entries, e.formattedAddress) ==> AddEntry(l, e) == l
    ensures !HasAddress(l.entries, e.formattedAddress) ==>
      var r := AddEntry(l, e);
      |r.entries| == |l.entries| + 1 && r.entries[|l.entries|] == e && r.entries[..|l.entries|] == l.entries &&
      |r.markers| == |l.markers| + 1 && r.markers[|l.markers|] == e.Position() && r.markers[..|l.markers|] == l.markers
  {
    if !HasAddress(l.entries, e.formattedAddress) {
      var r := AddEntry(l, e);
      assert r.entries[..|l.entries|] == l.entries;
      assert r.markers[..|l.markers|] == l.markers;
    }
  }

  lemma AddEntryKeepsInvariant(l: Lists, e: Entry)
    requires ListsInvariant(l)
    ensures ListsInvariant(AddEntry(l, e))
  {
    if !HasAddress(l.entries, e.formattedAddress) {
      var es := l.entries + [e];
      forall i, j | 0 <= i < j < |es| ensures es[i].formattedAddress != es[j].formattedAddress {
        if j == |l.entries| {
          assert es[i] == l.entries[i];
        }
      }
    }
  }

  lemma {:induction false} WithoutIdKeepsDistinct(es: seq<Entry>, id: real)
    requires DistinctAddresses(es)
    ensures DistinctAddresses(WithoutId(es, id))
  {
    if |es| > 0 {
      var tail := es[1..];
      assert DistinctAddresses(tail) by {
        forall i, j | 0 <= i < j < |tail| ensures tail[i].formattedAddress != tail[j].formattedAddress {
          assert tail[i] == es[i + 1] && tail[j] == es[j + 1];
        }
      }
      WithoutIdKeepsDistinct(tail, id);
      if es[0].id != id {
        var rest := WithoutId(tail, id);
        var r := [es[0]] + rest;
        forall i, j | 0 <= i < j < |r| ensures r[i].formattedAddress != r[j].formattedAddress {
          if i == 0 {
            assert r[j] == rest[j - 1] && rest[j - 1] in tail;
            var t :| 0 <= t < |tail| && tail[t] == rest[j - 1];
            assert es[t + 1] == tail[t];
          } else {
            assert r[i] == rest[i - 1] && r[j] == rest[j - 1];
          }
        }
      }
    }
  }

  lemma RemoveEntryKeepsInvariant(l: Lists, id: real)
    requires ListsInvariant(l)
    ensures ListsInvariant(RemoveEntry(l, id))
  {
    if IndexOfId(l.entries, id) != -1 {
      WithoutIdKeepsDistinct(l.entries, id);
    }
  }

  /** Over any sequence of `addToList`, `addToListFromURL` and
      `removeFromList` calls, the planned addresses stay pairwise distinct. */
  lemma {:induction false} ReplayKeepsInvariant(l: Lists, ops: seq<ListOp>)
    requires ListsInvariant(l)
    ensures ListsInvariant(Replay(l, ops))
    decreases |ops|
  {
    if |ops| > 0 {
      match ops[0] {
        case AddOp(e) => AddEntryKeepsInvariant(l, e);
        case AddFromUrlOp(e) => AddEntryKeepsInvariant(l, e);
        case RemoveOp(id) => RemoveEntryKeepsInvariant(l, id);
      }
      ReplayKeepsInvariant(Apply(l, ops[0]), ops[1..]);
    }
  }

  /** An id that no entry carries changes nothing. */
  lemma RemoveUnknownId(l: Lists, id: real)
    requires forall j :: 0 <= j < |l.entries| ==> l.entries[j].id != id
    ensures RemoveEntry(l, id) == l
  {
  }

  lemma {:induction false} WithoutUniqueId(es: seq<Entry>, k: int)
    requires DistinctIds(es) && 0 <= k < |es|
    ensures WithoutId(es, es[k].id) == es[..k] + es[k + 1..]
  {
    var id := es[k].id;
    if k == 0 {
      WithoutAbsentId(es[1..], id);
      assert es[..0] + es[1..] == es[1..];
    } else {
      var tail := es[1..];
      assert DistinctIds(tail) by {
        forall i, j | 0 <= i < j < |tail| ensures tail[i].id != tail[j].id {
          assert tail[i] == es[i + 1] && tail[j] == es[j + 1];
        }
      }
      assert tail[k - 1] == es[k];
      WithoutUniqueId(tail, k - 1);
      assert es[..k] + es[k + 1..] == [es[0]] + (tail[..k - 1] + tail[k..]);
    }
  }

  lemma {:induction false} WithoutAbsentId(es: seq<Entry>, id: real)
    requires forall j :: 0 <= j < |es| ==> es[j].id != id
    ensures WithoutId(es, id) == es
  {
    if |es| > 0 {
      WithoutAbsentId(es[1..], id);
      assert es == [es[0]] + es[1..];
    }
  }

  /** Removing a present id, when ids are unique, removes exactly that entry
      and keeps the others in order; at most one marker goes, and it is the
      first one near the removed entry. */
  lemma RemoveKnownId(l: Lists, k: int)
    requires DistinctIds(l.entries) && 0 <= k < |l.entries|
    ensures var r := RemoveEntry(l, l.entries[k].id);
      && r.entries == l.entries[..k] + l.entries[k + 1..]
      && var m := IndexOfNear(l.markers, l.entries[k].Position());
         (m == -1 ==> r.markers == l.markers) && (m >= 0 ==> r.markers == RemoveAt(l.markers, m))
  {
    assert IndexOfId(l.entries, l.entries[k].id) == k;
    WithoutUniqueId(l.entries, k);
  }

  /** When every entry has its own marker, ids are unique and no two entries
      lie within the tolerance of each other, removal keeps the markers
      parallel to the entries. */
  lemma RemoveKeepsMarkersParallel(l: Lists, k: int)
    requires DistinctIds(l.entries) && 0 <= k < |l.entries|
    requires l.markers == Positions(l.entries)
    requires forall i, j :: 0 <= i < j < |l.entries| ==> !Near(l.entries[i].Position(), l.entries[j].Position())
    ensures var r := RemoveEntry(l, l.entries[k].id); r.markers == Positions(r.entries)
  {
    var p := l.entries[k].Position();
    assert Near(l.markers[k], p);
    forall j | 0 <= j < k ensures !Near(l.markers[j], p) {
      assert l.markers[j] == l.entries[j].Position();
    }
    assert IndexOfNear(l.markers, p) == k;
    RemoveKnownId(l, k);
    PositionsRemoveAt(l.entries, k);
  }

  lemma PositionsRemoveAt(es: seq<Entry>, k: int)
    requires 0 <= k < |es|
    ensures RemoveAt(Positions(es), k) == Positions(RemoveAt(es, k))
  {
    var ps, qs := RemoveAt(Positions(es), k), Positions(RemoveAt(es, k));
    assert |ps| == |qs|;
    forall i | 0 <= i < |ps| ensures ps[i] == qs[i] {
      if i < k {
        assert ps[i] == es[i].Position();
      } else {
        assert ps[i] == es[i + 1].Position();
      }
    }
  }

  /** Sessions that only add keep one marker per entry, at its position. */
  lemma {:induction false} AddsKeepMarkersParallel(l: Lists, ops: seq<ListOp>)
    requires l.markers == Positions(l.entries)
    requires forall i :: 0 <= i < |ops| ==> !ops[i].RemoveOp?
    ensures var r := Replay(l, ops); r.markers == Positions(r.entries)
    decreases |ops|
  {
    if |ops| > 0 {
      var next := Apply(l, ops[0]);
      assert next.markers == Positions(next.entries);
      AddsKeepMarkersParallel(next, ops[1..]);
    }
  }

  /** A session of `n` adds grows the list by at most `n` entries and keeps
      every earlier entry in place. */
  lemma {:induction false} AddsGrowBounded(l: Lists, ops: seq<ListOp>)
    requires forall i :: 0 <= i < |ops| ==> !ops[i].RemoveOp?
    ensures var r := Replay(l, ops);
      |l.entries| <= |r.entries| <= |l.entries| + |ops| && r.entries[..|l.entries|] == l.entries
    decreases |ops|
  {
    if |ops| > 0 {
      var next := Apply(l, ops[0]);
      AddEntryEffect(l, ops[0].e);
      AddsGrowBounded(next, ops[1..]);
      var r := Replay(next, ops[1..]);
      assert r.entries[..|l.entries|] == r.entries[..|next.entries|][..|l.entries|];
    }
  }

  lemma ReplayThree(l: Lists, o1: ListOp, o2: ListOp, o3: ListOp, l1: Lists, l2: Lists, l3: Lists)
    requires Apply(l, o1) == l1 && Apply(l1, o2) == l2 && Apply(l2, o3) == l3
    ensures Replay(l, [o1, o2, o3]) == l3
  {
    var ops := [o1, o2, o3];
    assert ops[1..] == [o2, o3] && ops[1..][1..] == [o3] && ops[1..][1..][1..] == [];
    assert Replay(l2, [o3]) == Replay(l3, []) == l3;
    assert Replay(l1, [o2, o3]) == Replay(l2, [o3]);
  }

  /** Three entries where each of a, b lies within the tolerance of the next
      one but c does not lie within the tolerance of a. */
  predicate StaleChain(a: Entry, b: Entry, c: Entry) {
    && a.formattedAddress != b.formattedAddress
    && a.formattedAddress != c.formattedAddress
    && b.formattedAddress != c.formattedAddress
    && a.id != b.id && a.id != c.id && b.id != c.id
    && Near(a.Position(), b.Position())
    && Near(b.Position(), c.Position())
    && !Near(c.Position(), a.Position())
  }

  lemma StaleChainAdds(a: Entry, b: Entry, c: Entry)
    requires StaleChain(a, b, c)
    ensures Replay(Lists([], []), [AddOp(a), AddOp(b), AddOp(c)])
         == Lists([a, b, c], [a.Position(), b.Position(), c.Position()])
  {
    var l1 := Lists([a], [a.Position()]);
    var l2 := Lists([a, b], [a.Position(), b.Position()]);
    assert !HasAddress([a], b.formattedAddress);
    assert !HasAddress([a, b], c.formattedAddress);
    assert Lists([a] + [b], [a.Position()] + [b.Position()]) == l2;
    assert [a, b] + [c] == [a, b, c];
    ReplayThree(Lists([], []), AddOp(a), AddOp(b), AddOp(c), l1, l2, Lists([a, b, c], [a.Position(), b.Position(), c.Position()]));
  }

  /** Removing b takes a's marker (the first within the tolerance of b), then
      removing c takes b's, and removing a finds no marker near it. */
  lemma StaleChainRemovals(a: Entry, b: Entry, c: Entry)
    requires StaleChain(a, b, c)
    ensures Replay(Lists([a, b, c], [a.Position(), b.Position(), c.Position()]), [RemoveOp(b.id), RemoveOp(c.id), RemoveOp(a.id)])
         == Lists([], [c.Position()])
  {
    var pa, pb, pc := a.Position(), b.Position(), c.Position();
    assert IndexOfId([a, b, c], b.id) == 1;
    assert IndexOfNear([pa, pb, pc], pb) == 0;
    assert [a, b, c][1..] == [b, c] && [b, c][1..] == [c];
    assert WithoutId([a, b, c], b.id) == [a, c];
    assert [pa, pb, pc][..0] + [pa, pb, pc][1..] == [pb, pc];
    var l4 := Lists([a, c], [pb, pc]);
    assert IndexOfId([a, c], c.id) == 1;
    assert IndexOfNear([pb, pc], pc) == 0;
    assert [a, c][1..] == [c];
    assert WithoutId([a, c], c.id) == [a];
    assert [pb, pc][..0] + [pb, pc][1..] == [pc];
    var l5 := Lists([a], [pc]);
    assert IndexOfId([a], a.id) == 0;
    assert IndexOfNear([pc], pa) == -1;
    assert WithoutId([a], a.id) == [];
    ReplayThree(Lists([a, b, c], [pa, pb, pc]), RemoveOp(b.id), RemoveOp(c.id), RemoveOp(a.id), l4, l5, Lists([], [pc]));
  }

  /** The tolerance match can take another entry's marker: adding a, b, c and
      removing b, c, a leaves an empty list with c's marker still on the map. */
  lemma StaleMarkerAfterRemovals(a: Entry, b: Entry, c: Entry)
    requires StaleChain(a, b, c)
    ensures
      var ops := [AddOp(a), AddOp(b), AddOp(c), RemoveOp(b.id), RemoveOp(c.id), RemoveOp(a.id)];
      Replay(Lists([], []), ops) == Lists([], [c.Position()])
  {
    var adds := [AddOp(a), AddOp(b), AddOp(c)];
    var removes := [RemoveOp(b.id), RemoveOp(c.id), RemoveOp(a.id)];
    StaleChainAdds(a, b, c);
    StaleChainRemovals(a, b, c);
    ReplayConcat(Lists([], []), adds, removes);
    assert adds + removes == [AddOp(a), AddOp(b), AddOp(c), RemoveOp(b.id), RemoveOp(c.id), RemoveOp(a.id)];
  }

  /** Such entries exist: three addresses 0.00009 degrees of latitude apart. */
  lemma StaleChainExists()
    ensures StaleChain(Entry(Some("a"), 0.0, 0.0, 0.0, None, AddressKind),
                       Entry(Some("b"), 0.00009, 0.0, 1.0, None, AddressKind),
                       Entry(Some("c"), 0.00018, 0.0, 2.0, None, AddressKind))
  {
  }

  /** One more call extends a replay by one step. */
  lemma ReplayStep(l: Lists, ops: seq<ListOp>, i: int)
    requires 0 <= i < |ops|
    ensures Replay(l, ops[..i + 1]) == Apply(Replay(l, ops[..i]), ops[i])
  {
    var before := Replay(l, ops[..i]);
    assert Replay(before, [ops[i]]) == Apply(before, ops[i]);
    ReplayConcat(l, ops[..i], [ops[i]]);
    assert ops[..i + 1] == ops[..i] + [ops[i]];
  }

  lemma {:induction false} ReplayConcat(l: Lists, a: seq<ListOp>, b: seq<ListOp>)
    ensures Replay(l, a + b) == Replay(Replay(l, a), b)
    decreases |a|
  {
    if |a| > 0 {
      assert (a + b)[1..] == a[1..] + b;
      ReplayConcat(Apply(l, a[0]), a[1..], b);
    } else {
      assert a + b == b;
    }
  }

  // ---------------------------------------------------------------------
  // The center marker, the search radius and the search circle
  // ---------------------------------------------------------------------

  datatype Circle = Circle(center: Pos, radius: real)

  /** `centerMarker`, `searchRadius` and `searchCircle` (None for `null`). */
  datatype CenterView = CenterView(center: Option<Pos>, searchRadius: Option<real>, circle: Option<Circle>)

  /** `updateCenterOfInterest` on the planned positions `ps`. For fewer than two
      entries the marker and circle follow the list but `searchRadius` keeps its
      previous value. */
  function Recenter(v: CenterView, ps: seq<Pos>, dist: Distance): (w: CenterView)
    ensures w.center.None? <==> |ps| == 0
    ensures |ps| == 1 ==> w.center == Some(ps[0])
    ensures |ps| >= 2 ==> w.center == Some(Centroid(ps))
    ensures w.circle.Some? <==> |ps| >= 2
    ensures w.circle.Some? ==> w.center == Some(w.circle.value.center) && w.searchRadius == Some(w.circle.value.radius)
    ensures |ps| < 2 ==> w.searchRadius == v.searchRadius
    ensures |ps| >= 2 ==> w.searchRadius.Some? && w.searchRadius.value >= MinRadius
    ensures |ps| >= 2 ==> w.searchRadius == Some(SearchRadius(Centroid(ps), ps, dist))
  {
    match ComputeMeetupCenter(ps, dist)
    case NoCenter => CenterView(None, v.searchRadius, None)
    case SingleCenter(p) => CenterView(Some(p), v.searchRadius, None)
    case GroupCenter(c, r) => CenterView(Some(c), Some(r), Some(Circle(c, r)))
  }

  /** Recomputing on a list at least as long as the one before forgets the
      earlier result: only the current list (and, below two entries, the
      radius from before both) decides. */
  lemma RecenterAbsorbs(v: CenterView, a: seq<Pos>, b: seq<Pos>, dist: Distance)
    requires |a| <= |b|
    ensures Recenter(Recenter(v, a, dist), b, dist) == Recenter(v, b, dist)
  {
  }

  /** After two entries and then one, the radius of the pair is still in
      place although no circle is drawn. */
  lemma StaleRadiusAfterShrink(v: CenterView, p: Pos, q: Pos, dist: Distance)
    ensures
      var two := Recenter(v, [p, q], dist);
      var one := Recenter(two, [p], dist);
      one.center == Some(p) && one.circle.None? &&
      one.searchRadius == Some(SearchRadius(Centroid([p, q]), [p, q], dist))
  {
  }
}
