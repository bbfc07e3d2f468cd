/** The fixed table of delivery destinations: each hostel with its delivery fee (in naira) and the
    extra minutes it adds to the base delivery time. */
module Hostels {
  import opened Wrappers

  datatype Hostel = Hostel(id: string, name: string, deliveryFee: nat, estimatedExtraTime: nat)

  const All: seq<Hostel> := [
    Hostel("old-boys", "Old Boys Hostel", 200, 5),
    Hostel("new-boys", "New Boys Hostel", 250, 7),
    Hostel("newest-boys", "Newest Boys Hostel", 300, 10),
    Hostel("old-girls", "Old Girls Hostel", 200, 5),
    Hostel("new-girls-1", "New Girls Hostel 1", 250, 8),
    Hostel("new-girls-2", "New Girls Hostel 2", 250, 8),
    Hostel("new-girls-3", "New Girls Hostel 3", 300, 10),
    Hostel("newest-girls", "Newest Girls Hostel", 350, 12)
  ]

  /** The table has eight hostels, no two with the same id or name, and no empty id. */
  lemma TableShape()
    ensures |All| == 8
    ensures forall i, j :: 0 <= i < j < |All| ==> All[i].id != All[j].id && All[i].name != All[j].name
    ensures forall i :: 0 <= i < |All| ==> All[i].id != ""
  {
  }

  /** Every fee lies between 200 and 350 naira and every extra time between 5 and 12 minutes. */
  lemma TableRanges()
    ensures forall h :: h in All ==> 200 <= h.deliveryFee <= 350 && 5 <= h.estimatedExtraTime <= 12
  {
  }

  /** `hostels.find(h => h.id === id)` over the list `hs`. */
  function FindIn(hs: seq<Hostel>, id: string): (r: Option<Hostel>)
    ensures r.Some? ==> r.value in hs && r.value.id == id
    ensures r.None? <==> forall h :: h in hs ==> h.id != id
  {
    if hs == [] then None
    else if hs[0].id == id then Some(hs[0])
    else FindIn(hs[1..], id)
  }

  /** The hostel of the table with id `id`, if any. */
  function Find(id: string): (r: Option<Hostel>)
    ensures r.Some? ==> r.value in All && r.value.id == id
    ensures r.None? <==> forall h :: h in All ==> h.id != id
  {
    FindIn(All, id)
  }

  /** Since ids are unique, the hostel found for an id is the only one with that id. */
  lemma FindUnique(id: string, h: Hostel)
    requires h in All && h.id == id
    ensures Find(id) == Some(h)
  {
    TableShape();
    var g := Find(id).value;
    var k :| 0 <= k < |All| && All[k] == h;
    var m :| 0 <= m < |All| && All[m] == g;
    assert All[k].id == id && All[m].id == id;
    assert k == m;
  }
}
