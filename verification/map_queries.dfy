/**
  What the service asks of the map repository: filtered counts (the second
  component of the repository's `GetAll(where)` answer), the full listing in
  id order, and a page of that listing.
*/
module MapQueries {
  import opened MapModel

  /**
    A repository filter: an optional name, an optional submitter and a test
    on the status that every matching record must pass.
  */
  datatype MapFilter = MapFilter(name: Option<string>, submitterID: Option<nat>, statusOk: Status -> bool)

  predicate Matches(f: MapFilter, m: MapRecord) {
    && (f.name.Some? ==> m.name == f.name.value)
    && (f.submitterID.Some? ==> m.submitterID == f.submitterID.value)
    && f.statusOk(m.status)
  }

  /** The ids of the records that match a filter. */
  function MatchingIds(maps: map<nat, MapRecord>, f: MapFilter): (ids: set<nat>)
    ensures forall id :: id in ids <==> id in maps && Matches(f, maps[id])
  {
    set id | id in maps && Matches(f, maps[id])
  }

  /** The count of matching records, as the repository reports it. */
  function Count(maps: map<nat, MapRecord>, f: MapFilter): nat {
    |MatchingIds(maps, f)|
  }

  /** A count is positive exactly when some record matches. */
  lemma CountPositiveIff(maps: map<nat, MapRecord>, f: MapFilter)
    ensures Count(maps, f) > 0 <==> exists id :: id in maps && Matches(f, maps[id])
  {
    var ids := MatchingIds(maps, f);
    if Count(maps, f) > 0 {
      var id :| id in ids;
      assert id in maps && Matches(f, maps[id]);
    } else {
      assert ids == {};
    }
  }

  /** The records with ids below `n`, in increasing id order. */
  function Listing(maps: map<nat, MapRecord>, n: nat): (s: seq<MapRecord>)
    ensures |s| <= n
  {
    if n == 0 then []
    else Listing(maps, n - 1) + (if n - 1 in maps then [maps[n - 1]] else [])
  }

  function IdsBelow(maps: map<nat, MapRecord>, n: nat): set<nat> {
    set id | id in maps && id < n
  }

  predicate KeysAreIds(maps: map<nat, MapRecord>) {
    forall id :: id in maps ==> maps[id].id == id
  }

  /**
    The listing holds every record with an id below `n`, nothing else, each
    once, in strictly increasing id order.
  */
  lemma {:induction false} ListingExact(maps: map<nat, MapRecord>, n: nat)
    requires KeysAreIds(maps)
    ensures forall i :: 0 <= i < |Listing(maps, n)| ==>
      var m := Listing(maps, n)[i]; m.id in maps && m.id < n && maps[m.id] == m
    ensures forall i, j :: 0 <= i < j < |Listing(maps, n)| ==> Listing(maps, n)[i].id < Listing(maps, n)[j].id
    ensures forall id :: id in maps && id < n ==> maps[id] in Listing(maps, n)
  {
    if n > 0 {
      ListingExact(maps, n - 1);
      var s := Listing(maps, n);
      var prev := Listing(maps, n - 1);
      assert s == prev + (if n - 1 in maps then [maps[n - 1]] else []);
      forall i | 0 <= i < |s| ensures s[i].id in maps && s[i].id < n && maps[s[i].id] == s[i] {
        if i < |prev| {
          assert s[i] == prev[i];
          assert prev[i].id in maps && prev[i].id < n - 1 && maps[prev[i].id] == prev[i];
        } else {
          assert s[i] == maps[n - 1] && maps[n - 1].id == n - 1;
        }
      }
      forall id | id in maps && id < n ensures maps[id] in s {
        if id < n - 1 {
          assert maps[id] in prev;
        } else {
          assert s[|s| - 1] == maps[id];
        }
      }
    }
  }

  /** The listing is as long as the number of ids below `n`. */
  lemma {:induction false} ListingLength(maps: map<nat, MapRecord>, n: nat)
    ensures |Listing(maps, n)| == |IdsBelow(maps, n)|
  {
    if n > 0 {
      ListingLength(maps, n - 1);
      if n - 1 in maps {
        assert IdsBelow(maps, n) == IdsBelow(maps, n - 1) + {n - 1};
      } else {
        assert IdsBelow(maps, n) == IdsBelow(maps, n - 1);
      }
    }
  }

  /** The start of a page: `skip` items are passed over, all of them when fewer remain. */
  function PageStart(total: nat, skip: Option<nat>): (start: nat)
    ensures start <= total
  {
    match skip
    case None => 0
    case Some(k) => if k < total then k else total
  }

  /**
    A page of a listing: from the page start on, at most `take` items; no
    `take` means everything that remains.
  */
  function Page(items: seq<MapRecord>, skip: Option<nat>, take: Option<nat>): (p: seq<MapRecord>)
    ensures var start := PageStart(|items|, skip);
      && |p| == (if take.Some? && take.value < |items| - start then take.value else |items| - start)
      && forall i :: 0 <= i < |p| ==> p[i] == items[start + i]
  {
    var start := PageStart(|items|, skip);
    var rest := items[start..];
    match take
    case None => rest
    case Some(t) => if t < |rest| then rest[..t] else rest
  }
}
