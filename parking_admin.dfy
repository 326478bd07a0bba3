/** The parking service's admin routes over `parking_spots`: the per-lot
    summary, creating a lot, adding spots to a lot, the update placeholder
    and deleting a lot. Every route sits behind `authenticate, isAdmin`, and
    every `COUNT(*)` reaches the handler as decimal text that it `parseInt`s. */
module ParkingAdmin {
  import opened Js
  import opened Middleware
  import opened TextOrder
  import opened SpotTable

  /** One row of GET /admin/parking/lots. The JSON carries each count as
      `bigint` text; the model keeps the number it denotes. */
  datatype LotSummary = LotSummary(id: string, totalSpots: nat, availableSpots: nat, reservedSpots: nat)

  datatype Reply =
    | LotSummaries(lots: seq<LotSummary>)
    | LotCreated(lotId: Value, totalSpots: nat)
    | SpotsAdded(lotId: Value, spotsAdded: nat)
    | LotUpdated(id: string)
    | LotDeleted
    | Error(status: int, error: string)
  {
    function Status(): int {
      if Error? then status else if LotCreated? || SpotsAdded? then 201 else 200
    }

    function Message(): string {
      match this
      case LotSummaries(_) => ""
      case LotCreated(_, _) => "Parking lot created successfully"
      case SpotsAdded(_, _) => "Parking spots added successfully"
      case LotUpdated(_) => "Parking lot updated successfully"
      case LotDeleted => "Parking lot deleted successfully"
      case Error(_, error) => error
    }
  }

  /** The HTTP status and the `message` (or `error`) each reply is sent
      with: creating a lot or adding spots is a 201, a listing, an update
      and a deletion are a 200, and an error carries its own status. */
  lemma ReplyRendering(lotId: Value, n: nat, id: string, status: int, error: string)
    ensures LotCreated(lotId, n).Status() == 201 && LotCreated(lotId, n).Message() == "Parking lot created successfully"
    ensures SpotsAdded(lotId, n).Status() == 201 && SpotsAdded(lotId, n).Message() == "Parking spots added successfully"
    ensures LotUpdated(id).Status() == 200 && LotUpdated(id).Message() == "Parking lot updated successfully"
    ensures LotDeleted.Status() == 200 && LotDeleted.Message() == "Parking lot deleted successfully"
    ensures Error(status, error).Status() == status && Error(status, error).Message() == error
  {
  }

  const LotIdRequired := "lotId is required"
  const SpotNumbersRequired := "spotNumbers array is required"
  const AddSpotsRequired := "lotId and spotNumbers array are required"
  const LotExistsError := "Parking lot already exists"
  const LotNotFound := "Parking lot not found"
  const ReservedSpotsError := "Cannot delete parking lot with reserved spots. Cancel bookings first."
  const ServerError := "Internal server error"

  /** `parseInt(rows[0].count)` for `SELECT COUNT(*) ...`. */
  function ParsedCount(n: nat): (v: Value)
    ensures v == Num(n)
  {
    ParseIntOfDecimal(n);
    ParseInt(NatToDecimal(n))
  }

  /** GET /admin/parking/lots: one row per lot, ascending by lot id. */
  function Summaries(spots: seq<Spot>): (r: seq<LotSummary>)
    ensures |r| == |LotIds(spots)|
    ensures forall i :: 0 <= i < |r| ==>
      var lot := LotIds(spots)[i];
      r[i] == LotSummary(lot, CountLot(spots, lot), CountAvailable(spots, lot), CountReserved(spots, lot))
  {
    var ids := LotIds(spots);
    seq(|ids|, i requires 0 <= i < |ids| =>
      LotSummary(ids[i], CountLot(spots, ids[i]), CountAvailable(spots, ids[i]), CountReserved(spots, ids[i])))
  }

  /** Every existing lot is listed exactly once, in ascending order, with a
      positive total that its available and reserved spots add up to. */
  lemma SummariesComplete(spots: seq<Spot>)
    ensures var r := Summaries(spots);
      && (forall lot :: LotExists(spots, lot) <==> exists i :: 0 <= i < |r| && r[i].id == lot)
      && (forall i, j :: 0 <= i < j < |r| ==> Less(r[i].id, r[j].id))
      && (forall i :: 0 <= i < |r| ==> r[i].totalSpots > 0 && r[i].availableSpots + r[i].reservedSpots == r[i].totalSpots)
  {
    var r := Summaries(spots);
    var ids := LotIds(spots);
    AscendingPairwise(ids);
    forall lot ensures LotExists(spots, lot) <==> exists i :: 0 <= i < |r| && r[i].id == lot {
      if LotExists(spots, lot) {
        var i :| 0 <= i < |ids| && ids[i] == lot;
        assert r[i].id == lot;
      }
    }
    forall i | 0 <= i < |r| ensures r[i].totalSpots > 0 && r[i].availableSpots + r[i].reservedSpots == r[i].totalSpots {
      assert ids[i] in ids;
      CountsAddUp(spots, ids[i]);
    }
  }

  /** The lot id the route writes into `lot_id`: node-postgres sends a
      non-string parameter as its `toString()`. */
  function LotText(lotId: Value): string {
    ToStr(lotId)
  }

  /** The rows `INSERT INTO parking_spots (lot_id, spot_number)` adds for
      the given numbers, one at a time, ids taken from the serial. */
  function Fresh(lot: string, nums: seq<string>, next: int): seq<Spot> {
    seq(|nums|, i requires 0 <= i < |nums| => Spot(next + i, lot, nums[i], false))
  }

  /** The position of the first spot number that repeats an earlier one,
      or the length when there is none. */
  function FirstRepeat(nums: seq<string>): (k: nat)
    ensures k <= |nums|
    ensures forall j :: 0 <= j < k ==> nums[j] !in nums[..j]
    ensures k < |nums| ==> nums[k] in nums[..k]
  {
    if nums == [] then 0
    else
      var init := nums[..|nums| - 1];
      var k := FirstRepeat(init);
      assert forall j :: 0 <= j < |init| ==> init[..j] == nums[..j] && init[j] == nums[j];
      if k < |init| then k
      else if nums[|init|] in init then |init|
      else |nums|
  }

  /** In a lot that had no rows, the next number collides with an earlier
      row exactly when it repeats a number inserted before it. */
  lemma PairInFresh(spots: seq<Spot>, lot: string, nums: seq<string>, next: int, x: string)
    requires !LotExists(spots, lot)
    ensures PairExists(spots + Fresh(lot, nums, next), lot, x) <==> x in nums
  {
    var all := spots + Fresh(lot, nums, next);
    forall i | 0 <= i < |spots| ensures all[i] == spots[i] { }
    if PairExists(all, lot, x) {
      var i :| 0 <= i < |all| && all[i].lotId == lot && all[i].spotNumber == x;
      assert all[i] == Fresh(lot, nums, next)[i - |spots|];
    }
    if x in nums {
      var j :| 0 <= j < |nums| && nums[j] == x;
      assert all[|spots| + j].lotId == lot && all[|spots| + j].spotNumber == x;
    }
  }

  /** The rows after `INSERT ... ON CONFLICT DO NOTHING` for each number in
      turn: a number already present in the lot is skipped, but still uses
      up a serial value. */
  function AddAll(spots: seq<Spot>, lot: string, nums: seq<string>, next: int): seq<Spot>
    decreases |nums|
  {
    if nums == [] then spots
    else AddAll(InsertOrSkip(spots, lot, nums[0], next), lot, nums[1..], next + 1)
  }

  /** One `INSERT ... ON CONFLICT DO NOTHING` with serial value `id`. */
  function InsertOrSkip(spots: seq<Spot>, lot: string, number: string, id: int): (r: seq<Spot>)
    ensures PairExists(r, lot, number)
    ensures |spots| <= |r| <= |spots| + 1 && r[..|spots|] == spots
    ensures |r| == |spots| + 1 <==> !PairExists(spots, lot, number)
    ensures |r| == |spots| + 1 ==> r[|spots|] == Spot(id, lot, number, false)
  {
    if PairExists(spots, lot, number) then spots
    else
      var r := spots + [Spot(id, lot, number, false)];
      assert r[|spots|].lotId == lot && r[|spots|].spotNumber == number;
      r
  }

  /** `AddAll` over one more number is one more insert at the end. */
  lemma {:induction false} AddAllSnoc(spots: seq<Spot>, lot: string, nums: seq<string>, i: int, next: int)
    requires 0 <= i < |nums|
    ensures AddAll(spots, lot, nums[..i + 1], next) == InsertOrSkip(AddAll(spots, lot, nums[..i], next), lot, nums[i], next + i)
    decreases i
  {
    if i > 0 {
      AddAllSnoc(InsertOrSkip(spots, lot, nums[0], next), lot, nums[1..], i - 1, next + 1);
      assert nums[..i + 1][1..] == nums[1..][..i];
      assert nums[..i][1..] == nums[1..][..i - 1];
    } else {
      assert nums[..1][1..] == [];
    }
  }

  /** Adding spots keeps every existing row as it was (its reservation state
      included), adds only unreserved rows of this lot, and afterwards every
      requested number exists in the lot. */
  lemma {:induction false} AddAllExtends(spots: seq<Spot>, lot: string, nums: seq<string>, next: int)
    ensures var r := AddAll(spots, lot, nums, next);
      && |spots| <= |r| && r[..|spots|] == spots
      && (forall i :: |spots| <= i < |r| ==> r[i].lotId == lot && !r[i].isReserved)
      && (forall n :: n in nums ==> PairExists(r, lot, n))
      && (forall n :: PairExists(spots, lot, n) ==> PairExists(r, lot, n))
    decreases |nums|
  {
    if nums != [] {
      var spots' := InsertOrSkip(spots, lot, nums[0], next);
      AddAllExtends(spots', lot, nums[1..], next + 1);
      var r := AddAll(spots, lot, nums, next);
      assert r == AddAll(spots', lot, nums[1..], next + 1);
      assert spots'[..|spots|] == spots;
      assert r[..|spots|] == r[..|spots'|][..|spots|];
      forall n | PairExists(spots, lot, n) ensures PairExists(spots', lot, n) {
        var i :| 0 <= i < |spots| && spots[i].lotId == lot && spots[i].spotNumber == n;
        assert spots'[i] == spots[i];
      }
      assert PairExists(spots', lot, nums[0]) by {
        if !PairExists(spots, lot, nums[0]) {
          assert spots'[|spots|].spotNumber == nums[0];
        }
      }
      forall n | n in nums ensures PairExists(r, lot, n) {
        if n != nums[0] {
          assert n in nums[1..];
        }
      }
    }
  }

  /** The `parking_spots` table: its rows and the serial that numbers new ones. */
  class Inventory {
    var spots: seq<Spot>
    var nextId: int

    /** The table's unique keys hold and the serial is past every id. */
    ghost predicate Valid()
      reads this
    {
      UniqueKeys(spots) && forall i :: 0 <= i < |spots| ==> spots[i].id < nextId
    }

    constructor ()
      ensures spots == [] && nextId == 1 && Valid()
    {
      spots := [];
      nextId := 1;
    }

    /** One `INSERT INTO parking_spots (lot_id, spot_number)`: the serial
        advances either way, and the row goes in unless the pair is taken. */
    method TryInsert(lot: string, number: string) returns (inserted: bool)
      requires Valid()
      modifies this
      ensures Valid()
      ensures inserted <==> !PairExists(old(spots), lot, number)
      ensures spots == old(spots) + (if inserted then [Spot(old(nextId), lot, number, false)] else [])
      ensures spots == InsertOrSkip(old(spots), lot, number, old(nextId))
      ensures nextId == old(nextId) + 1
    {
      inserted := !PairExists(spots, lot, number);
      if inserted {
        spots := spots + [Spot(nextId, lot, number, false)];
      }
      nextId := nextId + 1;
    }

    /** The creation loop: a plain INSERT per number, in order, into a lot
        that had no rows, stopping at the first that fails (the first number
        repeating an earlier one). */
    method InsertEach(lot: string, nums: seq<string>) returns (ok: bool)
      requires Valid() && !LotExists(spots, lot)
      modifies this
      ensures Valid()
      ensures var k := FirstRepeat(nums);
        && ok == (k == |nums|)
        && spots == old(spots) + Fresh(lot, nums[..k], old(nextId))
        && nextId == old(nextId) + k + (if ok then 0 else 1)
    {
      ghost var spots0 := spots;
      ghost var next0 := nextId;
      var i := 0;
      while i < |nums|
        invariant 0 <= i <= |nums| && i <= FirstRepeat(nums)
        invariant spots == spots0 + Fresh(lot, nums[..i], next0)
        invariant nextId == next0 + i
        invariant Valid()
      {
        PairInFresh(spots0, lot, nums[..i], next0, nums[i]);
        var inserted := TryInsert(lot, nums[i]);
        if !inserted {
          return false;
        }
        assert Fresh(lot, nums[..i + 1], next0) == Fresh(lot, nums[..i], next0) + [Spot(next0 + i, lot, nums[i], false)];
        i := i + 1;
      }
      assert nums[..i] == nums;
      ok := true;
    }

    /** The adding loop: `INSERT ... ON CONFLICT DO NOTHING` per number. */
    method InsertSkipping(lot: string, nums: seq<string>)
      requires Valid()
      modifies this
      ensures Valid()
      ensures spots == AddAll(old(spots), lot, nums, old(nextId))
      ensures nextId == old(nextId) + |nums|
    {
      ghost var spots0 := spots;
      ghost var next0 := nextId;
      var i := 0;
      while i < |nums|
        invariant 0 <= i <= |nums|
        invariant spots == AddAll(spots0, lot, nums[..i], next0)
        invariant nextId == next0 + i
        invariant Valid()
      {
        AddAllSnoc(spots0, lot, nums, i, next0);
        var inserted := TryInsert(lot, nums[i]);
        i := i + 1;
      }
      assert nums[..i] == nums;
    }

    /** `DELETE FROM parking_spots WHERE lot_id = $1` */
    method DeleteRows(lot: string)
      requires Valid()
      modifies this`spots
      ensures Valid()
      ensures spots == RemoveLot(old(spots), lot)
    {
      var r := RemoveLot(spots, lot);
      RemoveLotUnique(spots, lot);
      forall i | 0 <= i < |r| ensures r[i].id < nextId {
        assert r[i] in spots;
      }
      spots := r;
    }
  }

  /** The admin gate's answer, when it answers. */
  function GateError(header: Option<string>, verify: string -> Option<Claims>): (r: Option<Reply>)
    ensures r.Some? <==> RunChain(AdminChain, header, verify, None).Rejected?
    ensures r.Some? ==>
      && r.value == Error(RunChain(AdminChain, header, verify, None).status, RunChain(AdminChain, header, verify, None).error)
      && (r.value.status == 401 || r.value.status == 403)
  {
    match RunChain(AdminChain, header, verify, None)
    case Rejected(status, error) => Some(Error(status, error))
    case Handled(_) => None
  }

  /** GET /admin/parking/lots */
  function ListLots(spots: seq<Spot>, header: Option<string>, verify: string -> Option<Claims>): (reply: Reply)
    ensures GateError(header, verify).Some? ==> reply == GateError(header, verify).value
    ensures GateError(header, verify).None? ==> reply == LotSummaries(Summaries(spots))
  {
    match GateError(header, verify)
    case Some(e) => e
    case None => LotSummaries(Summaries(spots))
  }

  /** POST /admin/parking/lots: 400 without a lot id or a non-empty array of
      spot numbers, 409 when the lot already has rows, otherwise one INSERT
      per number in order. Without a transaction, a number repeated in the
      request fails its INSERT: the rows before it stay and the answer is 500. */
  method CreateLot(inv: Inventory, lotId: Value, spotNumbers: Option<seq<string>>,
                   header: Option<string>, verify: string -> Option<Claims>) returns (reply: Reply)
    requires inv.Valid()
    modifies inv
    ensures inv.Valid()
    ensures GateError(header, verify).Some? ==>
      reply == GateError(header, verify).value && inv.spots == old(inv.spots) && inv.nextId == old(inv.nextId)
    ensures GateError(header, verify).None? && !Truthy(lotId) ==>
      reply == Error(400, LotIdRequired) && inv.spots == old(inv.spots) && inv.nextId == old(inv.nextId)
    ensures GateError(header, verify).None? && Truthy(lotId) && (spotNumbers.None? || spotNumbers.value == []) ==>
      reply == Error(400, SpotNumbersRequired) && inv.spots == old(inv.spots) && inv.nextId == old(inv.nextId)
    ensures GateError(header, verify).None? && Truthy(lotId) && spotNumbers.Some? && spotNumbers.value != []
            && LotExists(old(inv.spots), LotText(lotId)) ==>
      reply == Error(409, LotExistsError) && inv.spots == old(inv.spots) && inv.nextId == old(inv.nextId)
    ensures GateError(header, verify).None? && Truthy(lotId) && spotNumbers.Some? && spotNumbers.value != []
            && !LotExists(old(inv.spots), LotText(lotId)) ==>
      var lot := LotText(lotId);
      var nums := spotNumbers.value;
      var k := FirstRepeat(nums);
      && inv.spots == old(inv.spots) + Fresh(lot, nums[..k], old(inv.nextId))
      && inv.nextId == old(inv.nextId) + k + (if k < |nums| then 1 else 0)
      && reply == (if k == |nums| then LotCreated(lotId, |nums|) else Error(500, ServerError))
  {
    var gate := GateError(header, verify);
    if gate.Some? {
      return gate.value;
    }
    if !Truthy(lotId) {
      return Error(400, LotIdRequired);
    }
    if spotNumbers.None? || |spotNumbers.value| == 0 {
      return Error(400, SpotNumbersRequired);
    }
    var lot := LotText(lotId);
    var nums := spotNumbers.value;
    var existing := ParsedCount(CountLot(inv.spots, lot));
    if existing.Num? && existing.n > 0 {
      return Error(409, LotExistsError);
    }
    var ok := inv.InsertEach(lot, nums);
    if !ok {
      return Error(500, ServerError);
    }
    reply := LotCreated(lotId, |nums|);
  }

  /** POST /admin/parking/spots: 400 without a lot id or a non-empty array,
      404 for a lot with no rows, otherwise `INSERT ... ON CONFLICT DO
      NOTHING` per number. The reply counts the numbers sent, not the rows
      added. */
  method AddSpots(inv: Inventory, lotId: Value, spotNumbers: Option<seq<string>>,
                  header: Option<string>, verify: string -> Option<Claims>) returns (reply: Reply)
    requires inv.Valid()
    modifies inv
    ensures inv.Valid()
    ensures GateError(header, verify).Some? ==>
      reply == GateError(header, verify).value && inv.spots == old(inv.spots) && inv.nextId == old(inv.nextId)
    ensures GateError(header, verify).None? && (!Truthy(lotId) || spotNumbers.None? || spotNumbers.value == []) ==>
      reply == Error(400, AddSpotsRequired) && inv.spots == old(inv.spots) && inv.nextId == old(inv.nextId)
    ensures GateError(header, verify).None? && Truthy(lotId) && spotNumbers.Some? && spotNumbers.value != []
            && !LotExists(old(inv.spots), LotText(lotId)) ==>
      reply == Error(404, LotNotFound) && inv.spots == old(inv.spots) && inv.nextId == old(inv.nextId)
    ensures GateError(header, verify).None? && Truthy(lotId) && spotNumbers.Some? && spotNumbers.value != []
            && LotExists(old(inv.spots), LotText(lotId)) ==>
      var lot := LotText(lotId);
      && inv.spots == AddAll(old(inv.spots), lot, spotNumbers.value, old(inv.nextId))
      && inv.nextId == old(inv.nextId) + |spotNumbers.value|
      && reply == SpotsAdded(lotId, |spotNumbers.value|)
  {
    var gate := GateError(header, verify);
    if gate.Some? {
      return gate.value;
    }
    if !Truthy(lotId) || spotNumbers.None? || |spotNumbers.value| == 0 {
      return Error(400, AddSpotsRequired);
    }
    var lot := LotText(lotId);
    var nums := spotNumbers.value;
    var existing := ParsedCount(CountLot(inv.spots, lot));
    if existing == Num(0) {
      return Error(404, LotNotFound);
    }
    inv.InsertSkipping(lot, nums);
    reply := SpotsAdded(lotId, |nums|);
  }

  /** PUT /admin/parking/lots/:id: 404 for a lot with no rows, otherwise a
      success reply that changes nothing. */
  function UpdateLot(spots: seq<Spot>, id: string, header: Option<string>, verify: string -> Option<Claims>): (reply: Reply)
    ensures GateError(header, verify).Some? ==> reply == GateError(header, verify).value
    ensures GateError(header, verify).None? ==>
      (LotExists(spots, id) <==> reply == LotUpdated(id)) && (!LotExists(spots, id) <==> reply == Error(404, LotNotFound))
  {
    match GateError(header, verify)
    case Some(e) => e
    case None => if ParsedCount(CountLot(spots, id)) == Num(0) then Error(404, LotNotFound) else LotUpdated(id)
  }

  /** DELETE /admin/parking/lots/:id: 404 for a lot with no rows, 400 with
      nothing deleted while any of its spots is reserved, otherwise all of
      its rows go and no other row changes. */
  method DeleteLot(inv: Inventory, id: string, header: Option<string>, verify: string -> Option<Claims>) returns (reply: Reply)
    requires inv.Valid()
    modifies inv`spots
    ensures inv.Valid()
    ensures GateError(header, verify).Some? ==> reply == GateError(header, verify).value && inv.spots == old(inv.spots)
    ensures GateError(header, verify).None? && !LotExists(old(inv.spots), id) ==>
      reply == Error(404, LotNotFound) && inv.spots == old(inv.spots)
    ensures GateError(header, verify).None? && LotExists(old(inv.spots), id) && CountReserved(old(inv.spots), id) > 0 ==>
      reply == Error(400, ReservedSpotsError) && inv.spots == old(inv.spots)
    ensures GateError(header, verify).None? && LotExists(old(inv.spots), id) && CountReserved(old(inv.spots), id) == 0 ==>
      reply == LotDeleted && inv.spots == RemoveLot(old(inv.spots), id)
  {
    var gate := GateError(header, verify);
    if gate.Some? {
      return gate.value;
    }
    if ParsedCount(CountLot(inv.spots, id)) == Num(0) {
      return Error(404, LotNotFound);
    }
    var reserved := ParsedCount(CountReserved(inv.spots, id));
    if reserved.Num? && reserved.n > 0 {
      return Error(400, ReservedSpotsError);
    }
    inv.DeleteRows(id);
    reply := LotDeleted;
  }
}
