/** The parking service's `parking_spots` table and the queries both of its
    routers run on it. There is no lots table: a lot exists exactly when some
    spot row carries its `lot_id`. */
module SpotTable {
  import opened TextOrder

  datatype Spot = Spot(id: int, lotId: string, spotNumber: string, isReserved: bool)

  predicate LotExists(spots: seq<Spot>, lot: string) {
    exists i :: 0 <= i < |spots| && spots[i].lotId == lot
  }

  /** `SELECT COUNT(*) ... WHERE lot_id = $1` */
  function CountLot(spots: seq<Spot>, lot: string): (n: nat)
    ensures n <= |spots|
    ensures n > 0 <==> LotExists(spots, lot)
  {
    if spots == [] then 0
    else
      var rest := CountLot(spots[1..], lot);
      assert LotExists(spots, lot) <==> spots[0].lotId == lot || LotExists(spots[1..], lot) by {
        if LotExists(spots[1..], lot) {
          var i :| 0 <= i < |spots[1..]| && spots[1..][i].lotId == lot;
          assert spots[i + 1].lotId == lot;
        }
        if LotExists(spots, lot) && spots[0].lotId != lot {
          var i :| 0 <= i < |spots| && spots[i].lotId == lot;
          assert spots[1..][i - 1].lotId == lot;
        }
      }
      (if spots[0].lotId == lot then 1 else 0) + rest
  }

  /** `COUNT(*) FILTER (WHERE is_reserved = true)` within one lot. */
  function CountReserved(spots: seq<Spot>, lot: string): (n: nat)
    ensures n <= CountLot(spots, lot)
    ensures n > 0 <==> exists i :: 0 <= i < |spots| && spots[i].lotId == lot && spots[i].isReserved
  {
    if spots == [] then 0
    else
      var rest := CountReserved(spots[1..], lot);
      assert (exists i :: 0 <= i < |spots| && spots[i].lotId == lot && spots[i].isReserved) <==>
             (spots[0].lotId == lot && spots[0].isReserved)
             || (exists i :: 0 <= i < |spots[1..]| && spots[1..][i].lotId == lot && spots[1..][i].isReserved) by {
        forall i | 1 <= i < |spots| ensures spots[i] == spots[1..][i - 1] { }
      }
      (if spots[0].lotId == lot && spots[0].isReserved then 1 else 0) + rest
  }

  /** `COUNT(*) FILTER (WHERE is_reserved = false)` within one lot. */
  function CountAvailable(spots: seq<Spot>, lot: string): (n: nat)
    ensures n <= CountLot(spots, lot)
  {
    if spots == [] then 0
    else (if spots[0].lotId == lot && !spots[0].isReserved then 1 else 0) + CountAvailable(spots[1..], lot)
  }

  /** Every spot of a lot is either available or reserved. */
  lemma {:induction false} CountsAddUp(spots: seq<Spot>, lot: string)
    ensures CountAvailable(spots, lot) + CountReserved(spots, lot) == CountLot(spots, lot)
  {
    if spots != [] {
      CountsAddUp(spots[1..], lot);
    }
  }

  /** `GROUP BY lot_id ORDER BY lot_id`: each lot id once, ascending. */
  function LotIds(spots: seq<Spot>): (ids: seq<string>)
    ensures StrictlyAscending(ids)
    ensures forall x :: x in ids <==> LotExists(spots, x)
  {
    if spots == [] then []
    else
      var rest := LotIds(spots[1..]);
      assert forall x :: LotExists(spots, x) <==> x == spots[0].lotId || LotExists(spots[1..], x) by {
        forall x ensures LotExists(spots, x) <==> x == spots[0].lotId || LotExists(spots[1..], x) {
          if LotExists(spots[1..], x) {
            var i :| 0 <= i < |spots[1..]| && spots[1..][i].lotId == x;
            assert spots[i + 1].lotId == x;
          }
          if LotExists(spots, x) && spots[0].lotId != x {
            var i :| 0 <= i < |spots| && spots[i].lotId == x;
            assert spots[1..][i - 1].lotId == x;
          }
        }
      }
      InsertDistinct(spots[0].lotId, rest)
  }

  /** The listed lot ids are pairwise different: one row per lot. */
  lemma LotIdsDistinct(spots: seq<Spot>)
    ensures forall i, j :: 0 <= i < j < |LotIds(spots)| ==> LotIds(spots)[i] != LotIds(spots)[j]
  {
    AscendingPairwise(LotIds(spots));
  }

  /** Whether `(lot_id, spot_number)` is already taken, which is what the
      table's uniqueness constraint checks on insert. */
  predicate PairExists(spots: seq<Spot>, lot: string, number: string) {
    exists i :: 0 <= i < |spots| && spots[i].lotId == lot && spots[i].spotNumber == number
  }

  /** Two rows that the table's unique keys forbid together: the same `id`,
      or the same `(lot_id, spot_number)`. */
  predicate Clash(a: Spot, b: Spot) {
    a.id == b.id || (a.lotId == b.lotId && a.spotNumber == b.spotNumber)
  }

  /** The table's constraints: `id` and `(lot_id, spot_number)` are unique. */
  ghost predicate UniqueKeys(spots: seq<Spot>) {
    forall i, j :: 0 <= i < j < |spots| ==> !Clash(spots[i], spots[j])
  }

  /** `DELETE FROM parking_spots WHERE lot_id = $1`: the other rows, in order. */
  function RemoveLot(spots: seq<Spot>, lot: string): (r: seq<Spot>)
    ensures forall s :: s in r <==> s in spots && s.lotId != lot
    ensures |r| == |spots| - CountLot(spots, lot)
    ensures !LotExists(r, lot)
  {
    if spots == [] then []
    else if spots[0].lotId == lot then RemoveLot(spots[1..], lot)
    else
      assert forall s :: s in spots <==> s == spots[0] || s in spots[1..];
      [spots[0]] + RemoveLot(spots[1..], lot)
  }

  /** Deleting a lot leaves every other lot's counts as they were. */
  lemma {:induction false} RemoveLotKeepsOthers(spots: seq<Spot>, lot: string, other: string)
    requires other != lot
    ensures CountLot(RemoveLot(spots, lot), other) == CountLot(spots, other)
    ensures CountReserved(RemoveLot(spots, lot), other) == CountReserved(spots, other)
    ensures CountAvailable(RemoveLot(spots, lot), other) == CountAvailable(spots, other)
  {
    if spots != [] {
      RemoveLotKeepsOthers(spots[1..], lot, other);
      if spots[0].lotId != lot {
        assert ([spots[0]] + RemoveLot(spots[1..], lot))[1..] == RemoveLot(spots[1..], lot);
      }
    }
  }

  /** Deleting a lot cannot break the table's unique keys. */
  lemma {:induction false} RemoveLotUnique(spots: seq<Spot>, lot: string)
    requires UniqueKeys(spots)
    ensures UniqueKeys(RemoveLot(spots, lot))
  {
    if spots != [] {
      var rest := spots[1..];
      assert UniqueKeys(rest) by {
        forall i, j | 0 <= i < j < |rest| ensures !Clash(rest[i], rest[j]) {
          assert rest[i] == spots[i + 1] && rest[j] == spots[j + 1];
        }
      }
      RemoveLotUnique(rest, lot);
      if spots[0].lotId != lot {
        var tail := RemoveLot(rest, lot);
        forall j | 0 <= j < |tail| ensures !Clash(spots[0], tail[j]) {
          assert tail[j] in rest;
          var k :| 0 <= k < |rest| && rest[k] == tail[j];
          assert spots[k + 1] == tail[j];
        }
        UniqueCons(spots[0], tail);
      }
    }
  }

  lemma UniqueCons(x: Spot, tail: seq<Spot>)
    requires UniqueKeys(tail)
    requires forall j :: 0 <= j < |tail| ==> !Clash(x, tail[j])
    ensures UniqueKeys([x] + tail)
  {
    var r := [x] + tail;
    forall i, j | 0 <= i < j < |r| ensures !Clash(r[i], r[j]) {
      assert r[j] == tail[j - 1];
      if i > 0 {
        assert r[i] == tail[i - 1];
      }
    }
  }
}
