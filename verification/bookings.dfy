/**
 * The client booking routes over the bookings table: POST (book a session once), GET (the
 * caller's bookings) and DELETE (cancel one's own booking). The table is an in-memory list of
 * rows; each request is one sequential step, and the store's failures are inputs.
 */
module Bookings {
  import opened Wrappers
  import opened Seqs
  import opened Strings

  const MissingTrainingId: string := "Brak ID treningu"
  const AlreadyBooked: string := "Ju\U{17C} zapisany na ten trening"
  const BookedMessage: string := "Zapisano na trening"
  const ServerError: string := "B\U{142}\U{105}d serwera"
  const ListError: string := "B\U{142}\U{105}d pobierania zapis\U{F3}w"
  const NoAccess: string := "Nie masz dost\U{119}pu do tego zapisu"
  const CancelledMessage: string := "Wypisano z treningu"

  /** A row of the bookings table. */
  datatype Booking = Booking(id: nat, userId: string, trainingId: string)

  /** What a route answers: an error with its status, a message with its status, or the listed rows. */
  datatype Reply = Failure(status: nat, error: string) | Success(status: nat, message: string) | Listing(rows: seq<Booking>)

  /** No two rows share an id. */
  predicate UniqueIds(rows: seq<Booking>) {
    forall i, j :: 0 <= i < j < |rows| ==> rows[i].id != rows[j].id
  }

  /** No user is booked twice on the same session. */
  predicate OnePerPair(rows: seq<Booking>) {
    forall i, j :: 0 <= i < j < |rows| ==>
      !(rows[i].userId == rows[j].userId && rows[i].trainingId == rows[j].trainingId)
  }

  function PairTest(userId: string, trainingId: string): Booking -> bool {
    (b: Booking) => b.userId == userId && b.trainingId == trainingId
  }

  function IdTest(id: nat): Booking -> bool {
    (b: Booking) => b.id == id
  }

  function KeepTest(id: nat): Booking -> bool {
    (b: Booking) => b.id != id
  }

  function OwnerTest(userId: string): Booking -> bool {
    (b: Booking) => b.userId == userId
  }

  /** The answer of a `maybeSingle()` query. */
  datatype Lookup = Absent | Found(row: Booking) | Ambiguous

  /**
   * `maybeSingle()`: no row when nothing matches, the one matching row, or an error when
   * several rows match.
   */
  function MaybeSingle(rows: seq<Booking>, p: Booking -> bool): (r: Lookup)
    ensures r == Absent <==> forall i :: 0 <= i < |rows| ==> !p(rows[i])
    ensures r.Found? ==> r.row in rows && p(r.row)
    ensures r.Found? ==> forall i :: 0 <= i < |rows| && p(rows[i]) ==> rows[i] == r.row
    ensures r.Ambiguous? <==> exists i, j :: 0 <= i < j < |rows| && p(rows[i]) && p(rows[j])
  {
    var m := Filter(rows, p);
    FilterEmpty(rows, p);
    FilterTwoMatches(rows, p);
    if m == [] then Absent
    else if |m| == 1 then
      assert forall i :: 0 <= i < |rows| && p(rows[i]) ==> rows[i] == m[0] by {
        forall i | 0 <= i < |rows| && p(rows[i]) ensures rows[i] == m[0] {
          FilterCount(rows, p, rows[i]);
          assert rows[i] in multiset(m);
        }
      }
      Found(m[0])
    else Ambiguous
  }

  /** With one booking per user and session, the duplicate check never finds several rows. */
  lemma PairLookupSingle(rows: seq<Booking>, userId: string, trainingId: string)
    requires OnePerPair(rows)
    ensures !MaybeSingle(rows, PairTest(userId, trainingId)).Ambiguous?
  {
    FilterAtMostOne(rows, PairTest(userId, trainingId));
  }

  /** With unique ids, the ownership check never finds several rows. */
  lemma IdLookupSingle(rows: seq<Booking>, id: nat)
    requires UniqueIds(rows)
    ensures !MaybeSingle(rows, IdTest(id)).Ambiguous?
  {
    FilterAtMostOne(rows, IdTest(id));
  }

  /** Appending a row for a pair with no booking yet, under a new id, keeps both table invariants. */
  lemma InsertKeepsInvariants(rows: seq<Booking>, b: Booking)
    requires UniqueIds(rows) && OnePerPair(rows)
    requires forall i :: 0 <= i < |rows| ==> rows[i].id != b.id
    requires MaybeSingle(rows, PairTest(b.userId, b.trainingId)) == Absent
    ensures UniqueIds(rows + [b]) && OnePerPair(rows + [b])
  {
    var r := rows + [b];
    forall i, j | 0 <= i < j < |r|
      ensures r[i].id != r[j].id
      ensures !(r[i].userId == r[j].userId && r[i].trainingId == r[j].trainingId)
    {
      if j == |rows| {
        assert r[i] == rows[i] && !PairTest(b.userId, b.trainingId)(rows[i]);
      } else {
        assert r[i] == rows[i] && r[j] == rows[j];
      }
    }
  }

  /** With unique ids, deleting by the id of row `k` removes exactly that row and keeps the rest in order. */
  lemma DeleteRemovesOne(rows: seq<Booking>, k: nat)
    requires UniqueIds(rows) && k < |rows|
    ensures Filter(rows, KeepTest(rows[k].id)) == rows[..k] + rows[k + 1..]
  {
    var p := KeepTest(rows[k].id);
    forall i | 0 <= i < |rows| && i != k ensures p(rows[i]) {
      if i < k {
        assert rows[i].id != rows[k].id;
      } else {
        assert rows[k].id != rows[i].id;
      }
    }
    FilterRemoveOne(rows, k, p);
  }

  /** Removing one row keeps both table invariants. */
  lemma RemoveKeepsInvariants(rows: seq<Booking>, k: nat)
    requires UniqueIds(rows) && OnePerPair(rows) && k < |rows|
    ensures UniqueIds(rows[..k] + rows[k + 1..]) && OnePerPair(rows[..k] + rows[k + 1..])
  {
    var r := rows[..k] + rows[k + 1..];
    forall i, j | 0 <= i < j < |r|
      ensures r[i].id != r[j].id
      ensures !(r[i].userId == r[j].userId && r[i].trainingId == r[j].trainingId)
    {
      var i', j' := if i < k then i else i + 1, if j < k then j else j + 1;
      assert r[i] == rows[i'] && r[j] == rows[j'] && i' < j';
    }
  }

  /** The caller's bookings. */
  function OwnBookings(rows: seq<Booking>, userId: string): seq<Booking> {
    Filter(rows, OwnerTest(userId))
  }

  /** GET lists exactly the caller's rows, in table order, and no one else's. */
  lemma OwnBookingsSpec(rows: seq<Booking>, userId: string)
    ensures IsSubseq(OwnBookings(rows, userId), rows)
    ensures forall b :: b in OwnBookings(rows, userId) <==> b in rows && b.userId == userId
  {
    var p := OwnerTest(userId);
    FilterIsSubseq(rows, p);
    forall b | b in rows && b.userId == userId ensures b in OwnBookings(rows, userId) {
      FilterCount(rows, p, b);
      assert b in multiset(OwnBookings(rows, userId));
    }
  }

  /** The bookings table. */
  class BookingStore {
    var rows: seq<Booking>
    /** The id the store gives the next inserted row. */
    var nextId: nat

    ghost predicate Valid()
      reads this
    {
      UniqueIds(rows) && OnePerPair(rows) && forall b :: b in rows ==> b.id < nextId
    }

    constructor()
      ensures Valid() && rows == [] && nextId == 0
    {
      rows := [];
      nextId := 0;
    }

    /**
     * POST: a missing session id is a 400; a failed or ambiguous duplicate check is a 500; an
     * existing booking is a 400; otherwise exactly one row is inserted and the answer is 201,
     * unless the insert fails (500). Room capacity plays no part.
     */
    method Post(userId: string, trainingId: Option<string>, checkFails: bool, insertFails: bool) returns (reply: Reply)
      modifies this
      ensures !Truthy(trainingId) ==> reply == Failure(400, MissingTrainingId) && unchanged(this)
      ensures Truthy(trainingId) ==>
                var found := MaybeSingle(old(rows), PairTest(userId, trainingId.value));
                (checkFails || found.Ambiguous? ==> reply == Failure(500, ServerError) && unchanged(this))
                && (!checkFails && found.Found? ==> reply == Failure(400, AlreadyBooked) && unchanged(this))
                && (!checkFails && found == Absent && insertFails ==> reply == Failure(500, ServerError) && unchanged(this))
                && (!checkFails && found == Absent && !insertFails ==>
                      reply == Success(201, BookedMessage)
                      && rows == old(rows) + [Booking(old(nextId), userId, trainingId.value)]
                      && nextId == old(nextId) + 1)
      ensures old(Valid()) ==> Valid()
    {
      if !Truthy(trainingId) {
        return Failure(400, MissingTrainingId);
      }
      var t := trainingId.value;
      var found := MaybeSingle(rows, PairTest(userId, t));
      if checkFails || found.Ambiguous? {
        return Failure(500, ServerError);
      }
      if found.Found? {
        return Failure(400, AlreadyBooked);
      }
      if insertFails {
        return Failure(500, ServerError);
      }
      var b := Booking(nextId, userId, t);
      if Valid() {
        InsertKeepsInvariants(rows, b);
      }
      rows := rows + [b];
      nextId := nextId + 1;
      reply := Success(201, BookedMessage);
    }

    /** GET: the caller's rows, or a 500 when the query fails. */
    method List(userId: string, queryFails: bool) returns (reply: Reply)
      ensures queryFails ==> reply == Failure(500, ListError)
      ensures !queryFails ==> reply.Listing?
      ensures reply.Listing? ==> forall b :: b in reply.rows <==> b in rows && b.userId == userId
      ensures reply.Listing? ==> IsSubseq(reply.rows, rows)
    {
      if queryFails {
        return Failure(500, ListError);
      }
      OwnBookingsSpec(rows, userId);
      reply := Listing(OwnBookings(rows, userId));
    }

    /**
     * DELETE: a failed or ambiguous ownership check is a 500; a booking that does not exist or
     * belongs to someone else is a 403; otherwise the rows with that id are deleted (exactly
     * the one booking, when ids are unique), unless the delete fails (500).
     */
    method Delete(bookingId: nat, userId: string, checkFails: bool, deleteFails: bool) returns (reply: Reply)
      modifies this
      ensures var found := MaybeSingle(old(rows), IdTest(bookingId));
              (checkFails || found.Ambiguous? ==> reply == Failure(500, ServerError) && unchanged(this))
              && (!checkFails && (found == Absent || (found.Found? && found.row.userId != userId)) ==>
                    reply == Failure(403, NoAccess) && unchanged(this))
              && (!checkFails && found.Found? && found.row.userId == userId && deleteFails ==>
                    reply == Failure(500, ServerError) && unchanged(this))
              && (!checkFails && found.Found? && found.row.userId == userId && !deleteFails ==>
                    reply == Success(200, CancelledMessage)
                    && rows == Filter(old(rows), KeepTest(bookingId)) && nextId == old(nextId))
      ensures old(Valid()) && reply.Success? ==>
                exists k :: 0 <= k < |old(rows)| && old(rows)[k].id == bookingId && old(rows)[k].userId == userId
                            && rows == old(rows)[..k] + old(rows)[k + 1..]
      ensures old(Valid()) ==> Valid()
    {
      var found := MaybeSingle(rows, IdTest(bookingId));
      if checkFails || found.Ambiguous? {
        return Failure(500, ServerError);
      }
      if found == Absent || found.row.userId != userId {
        return Failure(403, NoAccess);
      }
      if deleteFails {
        return Failure(500, ServerError);
      }
      var k := IndexOf(rows, found.row);
      if Valid() {
        DeleteRemovesOne(rows, k);
        RemoveKeepsInvariants(rows, k);
        assert forall b :: b in rows[..k] + rows[k + 1..] ==> b in rows;
      }
      rows := Filter(rows, KeepTest(bookingId));
      reply := Success(200, CancelledMessage);
    }
  }
}
