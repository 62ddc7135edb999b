/** The admin page (`Admin` in src/app/admin/page.tsx): a create/edit form for one
    ticket, the ticket table, and the save/update and delete actions. */
module Admin {
  import opened Wrappers
  import opened Sequences
  import opened Store
  import opened Numerals

  /** The seven form inputs, by their `name` attribute. */
  datatype Field = From | To | Date | Time | Price | Count | BusModel

  /** A ticket as the admin page holds it: every data field is the text of a form
      input, and `id` is present only for rows that came from the store. */
  datatype Ticket = Ticket(
    id: Option<int>,
    from: string,
    to: string,
    date: string,
    time: string,
    price: string,
    count: string,
    busModel: string)

  /** The record sent to the store: the seven data fields and no id. */
  datatype Payload = Payload(
    from: string,
    to: string,
    date: string,
    time: string,
    price: string,
    count: string,
    busModel: string)

  /** Store requests this page issues, in order. */
  datatype Request =
    | SelectTickets
    | InsertTicket(payload: Payload)
    | UpdateTicket(id: int, payload: Payload)
    | DeleteTicket(id: int)

  /** The form's initial state and the state it is reset to after a save. */
  const EmptyForm := Ticket(None, "", "", "", "", "", "", "")

  function Get(t: Ticket, f: Field): string {
    match f
    case From => t.from
    case To => t.to
    case Date => t.date
    case Time => t.time
    case Price => t.price
    case Count => t.count
    case BusModel => t.busModel
  }

  function Value(p: Payload, f: Field): string {
    match f
    case From => p.from
    case To => p.to
    case Date => p.date
    case Time => p.time
    case Price => p.price
    case Count => p.count
    case BusModel => p.busModel
  }

  /** Two forms with the same id and the same text in every input are the same form. */
  lemma FormsEqual(a: Ticket, b: Ticket)
    requires a.id == b.id
    requires forall f :: Get(a, f) == Get(b, f)
    ensures a == b
  {
    assert Get(a, From) == Get(b, From) && Get(a, To) == Get(b, To);
    assert Get(a, Date) == Get(b, Date) && Get(a, Time) == Get(b, Time);
    assert Get(a, Price) == Get(b, Price) && Get(a, Count) == Get(b, Count);
    assert Get(a, BusModel) == Get(b, BusModel);
  }

  /** `{ ...ticket, [name]: value }`: the named input takes `v`; the other inputs and the id keep theirs. */
  function SetField(t: Ticket, f: Field, v: string): (r: Ticket)
    ensures r.id == t.id
    ensures Get(r, f) == v
    ensures forall g :: g != f ==> Get(r, g) == Get(t, g)
  {
    match f
    case From => t.(from := v)
    case To => t.(to := v)
    case Date => t.(date := v)
    case Time => t.(time := v)
    case Price => t.(price := v)
    case Count => t.(count := v)
    case BusModel => t.(busModel := v)
  }

  /** The contract of `SetField` pins its result: any form that agrees with it on the id
      and on all seven inputs is that result. */
  lemma SetFieldDetermined(t: Ticket, f: Field, v: string, r: Ticket)
    requires r.id == t.id && Get(r, f) == v
    requires forall g :: g != f ==> Get(r, g) == Get(t, g)
    ensures r == SetField(t, f, v)
  {
    FormsEqual(r, SetField(t, f, v));
  }

  /** Retyping an input's current text leaves the form as it was. */
  lemma SetFieldUnchanged(t: Ticket, f: Field)
    ensures SetField(t, f, Get(t, f)) == t
  {
  }

  /** The last change to an input wins. */
  lemma SetFieldTwice(t: Ticket, f: Field, v: string, w: string)
    ensures SetField(SetField(t, f, v), f, w) == SetField(t, f, w)
  {
  }

  /** Changes to two different inputs do not interfere. */
  lemma SetFieldCommutes(t: Ticket, f: Field, g: Field, v: string, w: string)
    requires f != g
    ensures SetField(SetField(t, f, v), g, w) == SetField(SetField(t, g, w), f, v)
  {
  }

  /** The save check: no input is empty (the id plays no part). */
  function Complete(t: Ticket): (r: bool)
    ensures r <==> forall f :: Get(t, f) != ""
  {
    assert Get(t, From) == t.from && Get(t, To) == t.to && Get(t, Date) == t.date;
    assert Get(t, Time) == t.time && Get(t, Price) == t.price && Get(t, Count) == t.count;
    assert Get(t, BusModel) == t.busModel;
    t.from != "" && t.to != "" && t.date != "" && t.time != "" &&
    t.price != "" && t.count != "" && t.busModel != ""
  }

  /** JavaScript truthiness of an optional numeric id: absent and 0 are both falsy. */
  function Truthy(id: Option<int>): (r: bool)
    ensures !r <==> id == None || id == Some(0)
  {
    id.Some? && id.value != 0
  }

  /** The record built from the form for the store. */
  function PayloadOf(t: Ticket): (p: Payload)
    ensures forall f :: Value(p, f) == Get(t, f)
  {
    Payload(t.from, t.to, t.date, t.time, t.price, t.count, t.busModel)
  }

  /** The store request a save issues for form `t`: an update of `t`'s id when that id is
      truthy, an insert otherwise; either way carrying exactly the seven inputs. */
  function RequestFor(t: Ticket): (r: Request)
    ensures r.InsertTicket? || r.UpdateTicket?
    ensures r.UpdateTicket? <==> Truthy(t.id)
    ensures r.UpdateTicket? ==> t.id == Some(r.id)
    ensures forall f :: Value(r.payload, f) == Get(t, f)
  {
    if Truthy(t.id) then UpdateTicket(t.id.value, PayloadOf(t)) else InsertTicket(PayloadOf(t))
  }

  /** As written, a form holding id 0 is saved as a new ticket rather than an update of row 0. */
  lemma IdZeroInserts(t: Ticket)
    requires t.id == Some(0)
    ensures RequestFor(t) == InsertTicket(PayloadOf(t))
  {
  }

  /** Whether the table shows a row: `parseInt(t.count) > 0` (NaN compares false). */
  function CountPositive(t: Ticket): (r: bool)
    ensures r ==> t.count != [] && t.count[0] != '-'
    ensures t.count != [] && AllDigits(t.count) ==>
      (r <==> exists i :: 0 <= i < |t.count| && t.count[i] != '0')
  {
    var n := ParseInt(t.count);
    assert t.count != [] && AllDigits(t.count) ==>
      n.Some? && (n.value > 0 <==> exists i :: 0 <= i < |t.count| && t.count[i] != '0') by {
      if t.count != [] && AllDigits(t.count) {
        ParsePositive(t.count);
      }
    }
    n.Some? && n.value > 0
  }

  /** The table's rows: the tickets whose count parses to a positive number, in list order. */
  function Displayed(ts: seq<Ticket>): (r: seq<Ticket>)
    ensures IsSubsequence(r, ts)
    ensures forall t :: t in r <==> t in ts && ParseInt(t.count).Some? && ParseInt(t.count).value > 0
    ensures forall t :: multiset(r)[t] == if CountPositive(t) then multiset(ts)[t] else 0
  {
    FilterCounts(ts, CountPositive);
    Filter(ts, CountPositive)
  }

  /** A row whose count is the decimal text of `n` is shown exactly when `n` is positive;
      one whose count is "-" followed by such a text is never shown. */
  lemma DisplayedRendered(ts: seq<Ticket>, t: Ticket, n: nat)
    requires t in ts
    ensures t.count == Show(n) ==> (t in Displayed(ts) <==> n > 0)
    ensures t.count == "-" + Show(n) ==> t !in Displayed(ts)
  {
  }

  /** The page's state: the form record, the fetched list and the requests issued. */
  class Controller {
    var ticket: Ticket
    var tickets: seq<Ticket>
    var requests: seq<Request>

    constructor ()
      ensures ticket == EmptyForm && tickets == [] && requests == []
    {
      ticket := EmptyForm;
      tickets := [];
      requests := [];
    }

    /** `fetchTickets`: the list becomes the fetched rows (`[]` for no data); a failed
        fetch leaves it as it was. The form is not touched. */
    method FetchTickets(res: Fetched<Ticket>)
      modifies this`tickets, this`requests
      ensures requests == old(requests) + [SelectTickets]
      ensures res.Failed? ==> tickets == old(tickets)
      ensures res.Rows? ==> tickets == res.data.GetOr([])
    {
      requests := requests + [SelectTickets];
      tickets := Refreshed(tickets, res);
    }

    /** `handleChange`: one input takes a new text. */
    method HandleChange(f: Field, v: string)
      modifies this`ticket
      ensures ticket == SetField(old(ticket), f, v)
    {
      ticket := SetField(ticket, f, v);
    }

    /** `handleEdit`: the form becomes the chosen row, id included. */
    method HandleEdit(t: Ticket)
      modifies this`ticket
      ensures ticket == t
    {
      ticket := t;
    }

    /** `handleSaveOrUpdate`: `stored` is whether the store accepted the request and
        `refreshed` the result of the re-fetch that follows a success. */
    method HandleSaveOrUpdate(stored: bool, refreshed: Fetched<Ticket>)
      modifies this`ticket, this`tickets, this`requests
      ensures !Complete(old(ticket)) ==>
        ticket == old(ticket) && tickets == old(tickets) && requests == old(requests)
      ensures Complete(old(ticket)) && stored ==>
        ticket == EmptyForm &&
        requests == old(requests) + [RequestFor(old(ticket)), SelectTickets] &&
        tickets == Refreshed(old(tickets), refreshed)
      ensures Complete(old(ticket)) && !stored ==>
        ticket == old(ticket) &&
        requests == old(requests) + [RequestFor(old(ticket))] &&
        tickets == old(tickets)
    {
      if ticket.from == "" || ticket.to == "" || ticket.date == "" || ticket.time == "" ||
         ticket.price == "" || ticket.count == "" || ticket.busModel == "" {
        return;
      }
      var payload := PayloadOf(ticket);
      var request := if Truthy(ticket.id) then UpdateTicket(ticket.id.value, payload)
                     else InsertTicket(payload);
      requests := requests + [request];
      if stored {
        ticket := EmptyForm;
        FetchTickets(refreshed);
      }
    }

    /** `handleDelete`: `confirmed` is the answer to the confirmation dialog (asked only
        when the id is truthy), `deleted` whether the store accepted the delete and
        `refreshed` the result of the re-fetch that follows a success. */
    method HandleDelete(id: Option<int>, confirmed: bool, deleted: bool, refreshed: Fetched<Ticket>)
      modifies this`tickets, this`requests
      ensures !Truthy(id) || !confirmed ==>
        tickets == old(tickets) && requests == old(requests)
      ensures Truthy(id) && confirmed && deleted ==>
        requests == old(requests) + [DeleteTicket(id.value), SelectTickets] &&
        tickets == Refreshed(old(tickets), refreshed)
      ensures Truthy(id) && confirmed && !deleted ==>
        requests == old(requests) + [DeleteTicket(id.value)] && tickets == old(tickets)
    {
      if !Truthy(id) || !confirmed {
        return;
      }
      requests := requests + [DeleteTicket(id.value)];
      if deleted {
        FetchTickets(refreshed);
      }
    }
  }
}
