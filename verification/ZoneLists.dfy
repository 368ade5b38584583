/** The zone lists of the slab allocator of `src/slab.c`: zone_array, one list for each size class, and
    zone_free. */
module ZoneLists {
  import opened Seqs
  import opened Zones

  type ZoneMap = map<Zid, Zone>

  /** A zone is on the list of its class exactly when it has a free chunk and is not parked; parked zones
      are entirely free. */
  ghost predicate Listed(zones: ZoneMap, lists: seq<seq<Zid>>, parked: seq<Zid>, z: Zid)
    requires |lists| == 72
  {
    && (forall i :: 0 <= i < 72 ==>
         (z in lists[i] <==> z in zones && z !in parked && zones[z].index == i && zones[z].nfree > 0))
    && (z in parked ==> z in zones && zones[z].nfree == zones[z].nmax)
  }

  ghost predicate ListsOk(zones: ZoneMap, lists: seq<seq<Zid>>, parked: seq<Zid>) {
    && |lists| == 72 && (forall i :: 0 <= i < 72 ==> NoDup(lists[i])) && NoDup(parked)
    && forall z :: Listed(zones, lists, parked, z)
  }

  /** The list of class `c` becomes `l` and the header of `z` becomes `w`; no other zone moves. */
  lemma Relisted(zones: ZoneMap, lists: seq<seq<Zid>>, parked: seq<Zid>, z: Zid, w: Zone, c: nat, l: seq<Zid>)
    requires ListsOk(zones, lists, parked) && c < 72 && NoDup(l) && z !in parked
    requires w.index == c && (z in zones ==> zones[z].index == c)
    requires forall y :: y in l <==> if y == z then w.nfree > 0 else y in lists[c]
    ensures ListsOk(zones[z := w], lists[c := l], parked)
  {
    var zones', lists' := zones[z := w], lists[c := l];
    forall y ensures Listed(zones', lists', parked, y) {
      assert Listed(zones, lists, parked, y);
      forall i | 0 <= i < 72
        ensures y in lists'[i] <==> y in zones' && y !in parked && zones'[y].index == i && zones'[y].nfree > 0
      {
        assert y in lists[i] <==> y in zones && y !in parked && zones[y].index == i && zones[y].nfree > 0;
      }
    }
    forall i | 0 <= i < 72 ensures NoDup(lists'[i]) {
      assert NoDup(lists[i]);
    }
  }

  lemma ListedAt(zones: ZoneMap, lists: seq<seq<Zid>>, parked: seq<Zid>, z: Zid)
    requires ListsOk(zones, lists, parked)
    ensures forall i :: 0 <= i < 72 ==>
      (z in lists[i] <==> z in zones && z !in parked && zones[z].index == i && zones[z].nfree > 0)
    ensures z in parked ==> z in zones && zones[z].nfree == zones[z].nmax
    ensures forall i :: 0 <= i < 72 ==> NoDup(lists[i])
  {
    assert Listed(zones, lists, parked, z);
  }

  lemma SizeIs(zones: ZoneMap, lists: seq<seq<Zid>>, parked: seq<Zid>)
    requires ListsOk(zones, lists, parked)
    ensures |lists| == 72 && NoDup(parked)
  {
  }

  /** A chunk is taken from the first zone of class `c`, which leaves the list when it is used up. */
  lemma Taken(zones: ZoneMap, lists: seq<seq<Zid>>, parked: seq<Zid>, c: nat, w: Zone)
    requires ListsOk(zones, lists, parked) && c < 72 && lists[c] != []
    requires lists[c][0] in zones ==> w.index == c && w.nfree == zones[lists[c][0]].nfree - 1
    ensures lists[c][0] in zones && zones[lists[c][0]].nfree > 0 && zones[lists[c][0]].index == c
    ensures ListsOk(zones[lists[c][0] := w], if w.nfree == 0 then lists[c := lists[c][1..]] else lists, parked)
  {
    hide ListsOk;
    SizeIs(zones, lists, parked);
    var z := lists[c][0];
    ListedAt(zones, lists, parked, z);
    assert z in lists[c];
    RestMembers(lists[c]);
    if w.nfree == 0 {
      Relisted(zones, lists, parked, z, w, c, lists[c][1..]);
    } else {
      Relisted(zones, lists, parked, z, w, c, lists[c]);
      assert lists[c := lists[c]] == lists;
    }
  }

  /** A chunk comes back to a zone, which returns to its list if it had none. */
  lemma Returned(zones: ZoneMap, lists: seq<seq<Zid>>, parked: seq<Zid>, z: Zid, w: Zone)
    requires ListsOk(zones, lists, parked) && z in zones && z !in parked
    requires zones[z].index < 72 && w.index == zones[z].index && 0 <= zones[z].nfree == w.nfree - 1
    ensures |lists| == 72
    ensures ListsOk(zones[z := w], if zones[z].nfree == 0 then lists[w.index := [z] + lists[w.index]] else lists,
                    parked)
  {
    hide ListsOk;
    SizeIs(zones, lists, parked);
    ListedAt(zones, lists, parked, z);
    var c := w.index;
    if zones[z].nfree == 0 {
      ConsMembers(z, lists[c]);
      Relisted(zones, lists, parked, z, w, c, [z] + lists[c]);
    } else {
      Relisted(zones, lists, parked, z, w, c, lists[c]);
      assert lists[c := lists[c]] == lists;
    }
  }

  /** A new zone with free chunks goes to the front of its list. */
  lemma Added(zones: ZoneMap, lists: seq<seq<Zid>>, parked: seq<Zid>, z: Zid, w: Zone)
    requires ListsOk(zones, lists, parked) && z !in zones && w.index < 72 && w.nfree > 0
    ensures |lists| == 72 && ListsOk(zones[z := w], lists[w.index := [z] + lists[w.index]], parked)
  {
    hide ListsOk;
    SizeIs(zones, lists, parked);
    ListedAt(zones, lists, parked, z);
    ConsMembers(z, lists[w.index]);
    Relisted(zones, lists, parked, z, w, w.index, [z] + lists[w.index]);
  }

  /** The first parked zone is used for another class. */
  lemma Unparked(zones: ZoneMap, lists: seq<seq<Zid>>, parked: seq<Zid>, w: Zone)
    requires ListsOk(zones, lists, parked) && parked != [] && w.index < 72 && w.nfree > 0
    ensures |lists| == 72 && parked[0] in zones && zones[parked[0]].nfree == zones[parked[0]].nmax
    ensures ListsOk(zones[parked[0] := w], lists[w.index := [parked[0]] + lists[w.index]], parked[1..])
  {
    var z, c := parked[0], w.index;
    ListedAt(zones, lists, parked, z);
    RestMembers(parked);
    ConsMembers(z, lists[c]);
    hide NoDup;
    var zones', lists', parked' := zones[z := w], lists[c := [z] + lists[c]], parked[1..];
    forall y ensures Listed(zones', lists', parked', y) {
      assert Listed(zones, lists, parked, y);
      forall i | 0 <= i < 72
        ensures y in lists'[i] <==> y in zones' && y !in parked' && zones'[y].index == i && zones'[y].nfree > 0
      {
        assert y in lists[i] <==> y in zones && y !in parked && zones[y].index == i && zones[y].nfree > 0;
      }
    }
  }

  /** An entirely free zone moves from place `k` of its list to the front of the parked zones. */
  lemma Parked(zones: ZoneMap, lists: seq<seq<Zid>>, parked: seq<Zid>, c: nat, k: nat)
    requires ListsOk(zones, lists, parked) && c < 72 && k < |lists[c]|
    requires lists[c][k] in zones ==> zones[lists[c][k]].nfree == zones[lists[c][k]].nmax
    ensures |lists| == 72
    ensures ListsOk(zones, lists[c := lists[c][..k] + lists[c][k + 1..]], [lists[c][k]] + parked)
  {
    var z := lists[c][k];
    var l := lists[c][..k] + lists[c][k + 1..];
    ListedAt(zones, lists, parked, z);
    assert z in lists[c];
    WithoutAt(lists[c], k);
    ConsMembers(z, parked);
    hide NoDup;
    var lists', parked' := lists[c := l], [z] + parked;
    forall y ensures Listed(zones, lists', parked', y) {
      assert Listed(zones, lists, parked, y);
      forall i | 0 <= i < 72
        ensures y in lists'[i] <==> y in zones && y !in parked' && zones[y].index == i && zones[y].nfree > 0
      {
        assert y in lists[i] <==> y in zones && y !in parked && zones[y].index == i && zones[y].nfree > 0;
      }
    }
  }

  /** The first parked zone is given up. */
  lemma Dropped(zones: ZoneMap, lists: seq<seq<Zid>>, parked: seq<Zid>)
    requires ListsOk(zones, lists, parked) && parked != []
    ensures parked[0] in zones && zones[parked[0]].nfree == zones[parked[0]].nmax
    ensures ListsOk(zones - {parked[0]}, lists, parked[1..])
  {
    var z := parked[0];
    ListedAt(zones, lists, parked, z);
    RestMembers(parked);
    hide NoDup;
    var zones', parked' := zones - {z}, parked[1..];
    forall y ensures Listed(zones', lists, parked', y) {
      assert Listed(zones, lists, parked, y);
      forall i | 0 <= i < 72
        ensures y in lists[i] <==> y in zones' && y !in parked' && zones'[y].index == i && zones'[y].nfree > 0
      {
        assert y in lists[i] <==> y in zones && y !in parked && zones[y].index == i && zones[y].nfree > 0;
      }
    }
  }
}
