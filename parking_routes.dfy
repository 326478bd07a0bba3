/** The parking service's public routes: the lot list with counts, and one
    lot with the status of each of its spots. Both only read `parking_spots`. */
module ParkingRoutes {
  import opened TextOrder
  import opened SpotTable
  import ParkingAdmin

  /** One row of GET /lots. The JSON carries each count as `bigint`
      text; the model keeps the number it denotes. */
  datatype LotCount = LotCount(id: string, totalSpots: nat, availableSpots: nat)

  /** One spot as GET /lots/:lotId shows it. */
  datatype SpotView = SpotView(id: int, lotId: string, spotNumber: string, status: string)

  /** The body of GET /lots/:lotId. */
  datatype LotInfo = LotInfo(id: string, spots: seq<SpotView>)

  /** GET /lots: one row per lot, ascending by lot id. */
  function PublicLots(spots: seq<Spot>): (r: seq<LotCount>)
    ensures |r| == |LotIds(spots)|
    ensures forall i :: 0 <= i < |r| ==>
      r[i] == LotCount(LotIds(spots)[i], CountLot(spots, LotIds(spots)[i]), CountAvailable(spots, LotIds(spots)[i]))
  {
    var ids := LotIds(spots);
    seq(|ids|, i requires 0 <= i < |ids| => LotCount(ids[i], CountLot(spots, ids[i]), CountAvailable(spots, ids[i])))
  }

  /** The public list is the admin list without the reserved column: the
      same lots, in the same order, with the same counts. */
  lemma PublicMatchesAdmin(spots: seq<Spot>)
    ensures var pub := PublicLots(spots);
      var adm := ParkingAdmin.Summaries(spots);
      && |pub| == |adm|
      && forall i :: 0 <= i < |pub| ==>
           pub[i].id == adm[i].id && pub[i].totalSpots == adm[i].totalSpots
           && pub[i].availableSpots == adm[i].availableSpots
           && adm[i].reservedSpots == pub[i].totalSpots - pub[i].availableSpots
  {
    var ids := LotIds(spots);
    forall i | 0 <= i < |ids| ensures CountAvailable(spots, ids[i]) + CountReserved(spots, ids[i]) == CountLot(spots, ids[i]) {
      CountsAddUp(spots, ids[i]);
    }
  }

  /** `CASE WHEN is_reserved = true THEN 'reserved' ELSE 'available' END` */
  function StatusOf(isReserved: bool): (status: string)
    ensures status == "reserved" <==> isReserved
    ensures status == "available" <==> !isReserved
  {
    if isReserved then "reserved" else "available"
  }

  function View(s: Spot): SpotView {
    SpotView(s.id, s.lotId, s.spotNumber, StatusOf(s.isReserved))
  }

  /** `WHERE lot_id = $1`: the rows of one lot. */
  function RowsOfLot(spots: seq<Spot>, lot: string): (r: seq<Spot>)
    ensures forall s :: s in r <==> s in spots && s.lotId == lot
    ensures |r| == CountLot(spots, lot)
  {
    if spots == [] then []
    else
      assert forall s :: s in spots <==> s == spots[0] || s in spots[1..];
      if spots[0].lotId == lot then [spots[0]] + RowsOfLot(spots[1..], lot) else RowsOfLot(spots[1..], lot)
  }

  ghost predicate SortedBySpotNumber(rows: seq<Spot>) {
    forall i, j :: 0 <= i < j < |rows| ==> LessEq(rows[i].spotNumber, rows[j].spotNumber)
  }

  function InsertBySpotNumber(row: Spot, sorted: seq<Spot>): (r: seq<Spot>)
    ensures multiset(r) == multiset(sorted) + multiset{row}
    ensures |r| == |sorted| + 1
  {
    if sorted == [] || LessEq(row.spotNumber, sorted[0].spotNumber) then [row] + sorted
    else
      assert sorted == [sorted[0]] + sorted[1..];
      [sorted[0]] + InsertBySpotNumber(row, sorted[1..])
  }

  lemma {:induction false} InsertKeepsSpotOrder(row: Spot, sorted: seq<Spot>)
    requires SortedBySpotNumber(sorted)
    ensures SortedBySpotNumber(InsertBySpotNumber(row, sorted))
  {
    if sorted == [] || LessEq(row.spotNumber, sorted[0].spotNumber) {
      var r := [row] + sorted;
      forall j | 1 <= j < |r| ensures LessEq(row.spotNumber, r[j].spotNumber) {
        if j > 1 {
          LessEqTransitive(row.spotNumber, sorted[0].spotNumber, sorted[j - 1].spotNumber);
        }
      }
    } else {
      var rest := InsertBySpotNumber(row, sorted[1..]);
      InsertKeepsSpotOrder(row, sorted[1..]);
      LessTotal(row.spotNumber, sorted[0].spotNumber);
      forall j | 0 <= j < |rest| ensures LessEq(sorted[0].spotNumber, rest[j].spotNumber) {
        assert rest[j] in multiset(rest);
        if rest[j] != row {
          assert rest[j] in multiset(sorted[1..]);
          var k :| 0 <= k < |sorted[1..]| && sorted[1..][k] == rest[j];
          assert sorted[k + 1] == rest[j];
        }
      }
      var r := [sorted[0]] + rest;
      forall i, j | 0 <= i < j < |r| ensures LessEq(r[i].spotNumber, r[j].spotNumber) {
        if i > 0 { assert r[i] == rest[i - 1] && r[j] == rest[j - 1]; }
        else { assert r[j] == rest[j - 1]; }
      }
    }
  }

  /** `ORDER BY spot_number`: the same rows, ascending by spot number. */
  function OrderBySpotNumber(rows: seq<Spot>): (r: seq<Spot>)
    ensures multiset(r) == multiset(rows) && |r| == |rows|
    ensures SortedBySpotNumber(r)
  {
    if rows == [] then []
    else
      assert rows == [rows[0]] + rows[1..];
      InsertKeepsSpotOrder(rows[0], OrderBySpotNumber(rows[1..]));
      InsertBySpotNumber(rows[0], OrderBySpotNumber(rows[1..]))
  }

  /** The query's rows: exactly those of the lot, ascending by spot number. */
  function LotRows(spots: seq<Spot>, lotId: string): (rows: seq<Spot>)
    ensures |rows| == CountLot(spots, lotId)
    ensures forall s :: s in rows <==> s in spots && s.lotId == lotId
    ensures SortedBySpotNumber(rows)
  {
    var rows := OrderBySpotNumber(RowsOfLot(spots, lotId));
    forall s ensures s in rows <==> s in RowsOfLot(spots, lotId) {
      assert s in rows <==> s in multiset(rows);
      assert s in RowsOfLot(spots, lotId) <==> s in multiset(RowsOfLot(spots, lotId));
    }
    rows
  }

  /** The selected columns of each row, in order. */
  function Views(rows: seq<Spot>): (vs: seq<SpotView>)
    ensures |vs| == |rows|
    ensures forall i :: 0 <= i < |vs| ==> vs[i] == View(rows[i])
  {
    if rows == [] then [] else [View(rows[0])] + Views(rows[1..])
  }

  lemma ViewsMembership(rows: seq<Spot>)
    ensures forall s :: View(s) in Views(rows) <==> s in rows
    ensures forall v :: v in Views(rows) ==> exists s :: s in rows && v == View(s)
  {
    var vs := Views(rows);
    forall s ensures View(s) in vs <==> s in rows {
      if View(s) in vs {
        var i :| 0 <= i < |vs| && vs[i] == View(s);
        assert rows[i] == s;
      }
      if s in rows {
        var i :| 0 <= i < |rows| && rows[i] == s;
        assert vs[i] == View(s);
      }
    }
    forall v | v in vs ensures exists s :: s in rows && v == View(s) {
      var i :| 0 <= i < |vs| && vs[i] == v;
      assert rows[i] in rows;
    }
  }

  /** GET /lots/:lotId: the requested id echoed back and the lot's spots,
      ordered by spot number; a lot with no rows gives an empty list, not a 404. */
  function LotDetails(spots: seq<Spot>, lotId: string): (info: LotInfo)
    ensures info.id == lotId && |info.spots| == CountLot(spots, lotId)
    ensures !LotExists(spots, lotId) ==> info.spots == []
    ensures forall s :: s in spots && s.lotId == lotId <==> View(s) in info.spots
    ensures forall v :: v in info.spots ==> v.lotId == lotId && (v.status == "reserved" || v.status == "available")
    ensures forall i, j :: 0 <= i < j < |info.spots| ==> LessEq(info.spots[i].spotNumber, info.spots[j].spotNumber)
  {
    var rows := LotRows(spots, lotId);
    ViewsMembership(rows);
    LotInfo(lotId, Views(rows))
  }
}
