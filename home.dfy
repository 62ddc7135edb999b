/** The public search-and-booking page (`Home` in src/app/page.tsx): the full
    ticket list fetched from the store, the `filteredTickets` list derived from it,
    the two search selects, and the purchase action. The page's markup renders neither
    `filteredTickets` nor a purchase control; "filtered list" below means the contents
    of `filteredTickets`. */
module Home {
  import opened Wrappers
  import opened Sequences
  import opened Store

  /** A row of the `tickets` table as this page sees it. */
  datatype Ticket = Ticket(
    id: int,
    from: string,
    to: string,
    date: string,
    time: string,
    price: int,
    count: int,
    busModel: Option<string>)

  /** The search selects; "" is the placeholder option and matches any region. */
  datatype SearchParams = SearchParams(from: string, to: string)

  datatype Criterion = From | To

  /** A row inserted into the `userTickets` table on purchase. */
  datatype Booking = Booking(
    ticketId: int,
    username: string,
    from: string,
    to: string,
    date: string,
    time: string,
    price: int)

  /** Store requests this page issues, in order. */
  datatype Request = SelectTickets | InsertBooking(booking: Booking)

  const FetchErrorMessage := "An error occurred while fetching tickets."

  /** The search predicate: each criterion is either empty or equal, and seats remain. */
  function Matches(c: SearchParams, t: Ticket): (r: bool)
    ensures r ==> t.count > 0
    ensures r && c.from != "" ==> t.from == c.from
    ensures r && c.to != "" ==> t.to == c.to
    ensures c == SearchParams("", "") ==> (r <==> t.count > 0)
    ensures c == SearchParams(t.from, t.to) ==> (r <==> t.count > 0)
  {
    (c.from == "" || t.from == c.from) && (c.to == "" || t.to == c.to) && t.count > 0
  }

  /** What a search puts in the filtered list: the matching tickets, in list order, each as often as listed. */
  function SearchResult(ts: seq<Ticket>, c: SearchParams): (r: seq<Ticket>)
    ensures IsSubsequence(r, ts)
    ensures forall t :: t in r <==>
      t in ts && (c.from == "" || t.from == c.from) && (c.to == "" || t.to == c.to) && t.count > 0
    ensures forall t :: multiset(r)[t] == if Matches(c, t) then multiset(ts)[t] else 0
  {
    FilterCounts(ts, t => Matches(c, t));
    Filter(ts, t => Matches(c, t))
  }

  predicate HasSeats(t: Ticket) {
    t.count > 0
  }

  /** The tickets with seats left, in list order, each as often as listed (the filtered
      list after a purchase). */
  function Available(ts: seq<Ticket>): (r: seq<Ticket>)
    ensures IsSubsequence(r, ts)
    ensures forall t :: t in r <==> t in ts && t.count > 0
    ensures forall t :: multiset(r)[t] == if t.count > 0 then multiset(ts)[t] else 0
  {
    FilterCounts(ts, HasSeats);
    Filter(ts, HasSeats)
  }

  /** A search with both selects on the placeholder selects exactly the tickets with seats left. */
  lemma SearchAnyIsAvailable(ts: seq<Ticket>)
    ensures SearchResult(ts, SearchParams("", "")) == Available(ts)
  {
    FilterAgree(ts, t => Matches(SearchParams("", ""), t), HasSeats);
  }

  /** Whatever the criteria, a search selects a subsequence of the available tickets. */
  lemma SearchWithinAvailable(ts: seq<Ticket>, c: SearchParams)
    ensures IsSubsequence(SearchResult(ts, c), Available(ts))
  {
    FilterStronger(ts, t => Matches(c, t), HasSeats);
  }

  /** The list after a purchase of ticket `id`: every ticket carrying that id loses
      exactly one seat (with no floor at zero); nothing else changes. */
  function Decrement(ts: seq<Ticket>, id: int): (r: seq<Ticket>)
    ensures |r| == |ts|
    ensures forall i :: 0 <= i < |ts| ==>
      r[i] == ts[i].(count := r[i].count) &&
      r[i].count == if ts[i].id == id then ts[i].count - 1 else ts[i].count
  {
    if ts == [] then []
    else
      var head := if ts[0].id == id then ts[0].(count := ts[0].count - 1) else ts[0];
      [head] + Decrement(ts[1..], id)
  }

  /** Seats remaining over a list. */
  function Seats(ts: seq<Ticket>): int {
    if ts == [] then 0 else ts[0].count + Seats(ts[1..])
  }

  /** Number of list entries carrying `id`. */
  function Holding(ts: seq<Ticket>, id: int): nat {
    if ts == [] then 0 else (if ts[0].id == id then 1 else 0) + Holding(ts[1..], id)
  }

  /** A purchase removes one seat per list entry with the bought id, and no more. */
  lemma {:induction false} DecrementSeats(ts: seq<Ticket>, id: int)
    ensures Seats(Decrement(ts, id)) == Seats(ts) - Holding(ts, id)
  {
    if ts != [] {
      DecrementSeats(ts[1..], id);
      var r := Decrement(ts, id);
      assert r[1..] == Decrement(ts[1..], id);
    }
  }

  /** After a purchase the bought entry stays in the filtered list exactly when it had more
      than one seat. */
  lemma DecrementVisibility(ts: seq<Ticket>, i: nat)
    requires i < |ts|
    ensures Decrement(ts, ts[i].id)[i] in Available(Decrement(ts, ts[i].id)) <==> ts[i].count > 1
  {
  }

  /** An example: one ticket Toshkent to Samarqand with two seats. Searching from
      Toshkent finds it, from Andijon finds nothing; one purchase leaves one seat and the
      ticket in the filtered list; a second leaves none and drops it from that list. */
  lemma BuyTwiceExample(t: Ticket)
    requires t == Ticket(1, "Toshkent", "Samarqand", "2025-01-01", "08:00", 50000, 2, None)
    ensures SearchResult([t], SearchParams("Toshkent", "")) == [t]
    ensures SearchResult([t], SearchParams("Andijon", "")) == []
    ensures Decrement([t], 1) == [t.(count := 1)]
    ensures Available(Decrement([t], 1)) == [t.(count := 1)]
    ensures Decrement(Decrement([t], 1), 1) == [t.(count := 0)]
    ensures Available(Decrement(Decrement([t], 1), 1)) == []
  {
  }

  /** As written, a purchase does not floor the count: buying a ticket with no seats
      left (the filtered list holds such tickets straight after a fetch) makes its count
      negative. */
  lemma DecrementUnguarded(t: Ticket)
    requires t.count == 0
    ensures Decrement([t], t.id) == [t.(count := -1)]
  {
  }

  /** As written, the filtered list rebuilt after a purchase drops the search criteria:
      a ticket the search had excluded is back in it. */
  lemma CriteriaDroppedAfterPurchase(a: Ticket, b: Ticket)
    requires a == Ticket(1, "Toshkent", "Samarqand", "2025-01-01", "08:00", 50000, 2, None)
    requires b == Ticket(2, "Andijon", "Buxoro", "2025-01-01", "09:30", 70000, 3, None)
    ensures SearchResult([a, b], SearchParams("Toshkent", "")) == [a]
    ensures b in Available(Decrement([a, b], a.id))
    ensures b !in SearchResult([a, b], SearchParams("Toshkent", ""))
  {
    var r := SearchResult([a, b], SearchParams("Toshkent", ""));
    assert b.from != "Toshkent";
    assert multiset(r) == multiset([a]);
    assert |r| == 1 by { assert |multiset(r)| == |r|; }
    assert r[0] in r;
    assert Decrement([a, b], a.id)[1] == b;
  }

  /** The page's state: fields mirror the component's `useState` hooks. */
  class Controller {
    var params: SearchParams
    var tickets: seq<Ticket>
    var filtered: seq<Ticket>
    var error: Option<string>
    var requests: seq<Request>

    /** The filtered list is always drawn, in order, from the full list. */
    ghost predicate Valid()
      reads this
    {
      IsSubsequence(filtered, tickets)
    }

    constructor ()
      ensures Valid()
      ensures params == SearchParams("", "") && tickets == [] && filtered == []
      ensures error == None && requests == []
    {
      params := SearchParams("", "");
      tickets := [];
      filtered := [];
      error := None;
      requests := [];
    }

    /** `fetchTickets`: on success both lists become the fetched rows (sold-out ones
        included); on failure only the error is set. A success does not clear an
        earlier error. */
    method FetchTickets(res: Fetched<Ticket>)
      requires Valid()
      modifies this`tickets, this`filtered, this`error, this`requests
      ensures Valid()
      ensures requests == old(requests) + [SelectTickets]
      ensures res.Failed? ==>
        tickets == old(tickets) && filtered == old(filtered) && error == Some(FetchErrorMessage)
      ensures res.Rows? ==>
        tickets == res.data.GetOr([]) && filtered == tickets && error == old(error)
    {
      requests := requests + [SelectTickets];
      match res
      case Failed =>
        error := Some(FetchErrorMessage);
      case Rows(data) =>
        tickets := data.GetOr([]);
        filtered := data.GetOr([]);
        SubsequenceReflexive(tickets);
    }

    /** The `onChange` of one search select: sets that criterion only. */
    method SetParam(field: Criterion, value: string)
      modifies this`params
      ensures field == From ==> params == SearchParams(value, old(params).to)
      ensures field == To ==> params == SearchParams(old(params).from, value)
    {
      match field
      case From => params := params.(from := value);
      case To => params := params.(to := value);
    }

    /** `handleSearch`: replaces the filtered list by the search result over the full list. */
    method HandleSearch()
      requires Valid()
      modifies this`filtered
      ensures Valid()
      ensures filtered == SearchResult(tickets, params)
      ensures tickets == old(tickets)
    {
      filtered := SearchResult(tickets, params);
    }

    /** `handleBuy`: `username` is the answer to the name prompt (`None` when dismissed)
        and `inserted` whether the store accepted the booking row. */
    method HandleBuy(ticket: Ticket, username: Option<string>, inserted: bool)
      requires Valid()
      modifies this`tickets, this`filtered, this`requests
      ensures Valid()
      ensures username.None? || username.value == "" ==>
        tickets == old(tickets) && filtered == old(filtered) && requests == old(requests)
      ensures username.Some? && username.value != "" ==>
        requests == old(requests) + [InsertBooking(Booking(ticket.id, username.value,
          ticket.from, ticket.to, ticket.date, ticket.time, ticket.price))]
      ensures username.Some? && username.value != "" && inserted ==>
        tickets == Decrement(old(tickets), ticket.id) && filtered == Available(tickets)
      ensures !inserted ==> tickets == old(tickets) && filtered == old(filtered)
    {
      if username.None? || username.value == "" {
        return;
      }
      var booking := Booking(ticket.id, username.value,
        ticket.from, ticket.to, ticket.date, ticket.time, ticket.price);
      requests := requests + [InsertBooking(booking)];
      if inserted {
        tickets := Decrement(tickets, ticket.id);
        filtered := Available(tickets);
      }
    }
  }
}
