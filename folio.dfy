/** The guest folio of the guest editor: the request lines it keeps, the total
    it stores, the check-out date it derives, and the total the printed
    registration recomputes from the stored record. */
module Folio {
  import opened Base
  import opened Text
  import opened Numbers
  import opened Sequences
  import opened GuestModels

  /** The price posted for line `i`: a missing or empty entry counts as 0, and
      a price `float` rejects counts as 0. */
  function PriceAt(prices: seq<string>, i: nat): real {
    if i < |prices| && prices[i] != "" then ParseNumber(RemoveCommas(prices[i])).GetOr(0.0)
    else 0.0
  }

  /** The price of a line is the lenient coercion of its posted text, and 0
      when no price was posted for it. */
  lemma PriceIsLenient(prices: seq<string>, i: nat)
    ensures PriceAt(prices, i) == if i < |prices| then Lenient(prices[i]) else 0.0
  {
    if i < |prices| && prices[i] != "" && RemoveCommas(prices[i]) == "" {
      assert Strip("") == "";
      assert ParseNumber("") == None;
    }
  }

  /** The first `n` posted lines, each with its stripped text and its price. */
  function Lines(items: seq<string>, prices: seq<string>, n: nat): (r: seq<Request>)
    requires n <= |items|
    ensures |r| == n
    ensures forall i :: 0 <= i < n ==> r[i] == Request(Strip(items[i]), PriceAt(prices, i))
  {
    seq(n, i requires 0 <= i < n => Request(Strip(items[i]), PriceAt(prices, i)))
  }

  /** A line is stored when its stripped text is not empty. */
  predicate IsStored(r: Request) {
    r.item != ""
  }

  /** The request list the editor stores: the non-blank lines in posted order. */
  function StoredRequests(items: seq<string>, prices: seq<string>): seq<Request> {
    Filter(Lines(items, prices, |items|), IsStored)
  }

  /** The sum of the prices of a request list. */
  function PricesSum(rs: seq<Request>): real {
    if rs == [] then 0.0 else PricesSum(rs[..|rs| - 1]) + rs[|rs| - 1].price
  }

  lemma {:induction false} PricesSumAppend(a: seq<Request>, b: seq<Request>)
    ensures PricesSum(a + b) == PricesSum(a) + PricesSum(b)
    decreases |b|
  {
    if b == [] {
      assert a + b == a;
    } else {
      assert (a + b)[..|a + b| - 1] == a + b[..|b| - 1];
      PricesSumAppend(a, b[..|b| - 1]);
    }
  }

  /** Adding one posted line to the prefix that is filtered adds that line
      exactly when it is not blank. */
  lemma StoredStep(items: seq<string>, prices: seq<string>, i: nat)
    requires i < |items|
    ensures Filter(Lines(items, prices, i + 1), IsStored)
         == Filter(Lines(items, prices, i), IsStored) +
            (if Strip(items[i]) != "" then [Request(Strip(items[i]), PriceAt(prices, i))] else [])
  {
    assert Lines(items, prices, i + 1)[..i] == Lines(items, prices, i);
  }

  /** The editor's loop over the posted lines: it appends each non-blank line,
      stripped and priced, and adds its price to the running total. */
  method CollectRequests(items: seq<string>, prices: seq<string>) returns (list: seq<Request>, total: real)
    ensures list == StoredRequests(items, prices)
    ensures total == PricesSum(list)
  {
    list := [];
    total := 0.0;
    for i := 0 to |items|
      invariant list == Filter(Lines(items, prices, i), IsStored)
      invariant total == PricesSum(list)
    {
      StoredStep(items, prices, i);
      var item := Strip(items[i]);
      if item != "" {
        var price := PriceAt(prices, i);
        var line := Request(item, price);
        PricesSumAppend(list, [line]);
        list := list + [line];
        total := total + price;
      }
    }
  }

  /** Every stored line has non-empty text with no surrounding whitespace. */
  lemma StoredAreStripped(items: seq<string>, prices: seq<string>, k: nat)
    requires k < |StoredRequests(items, prices)|
    ensures StoredRequests(items, prices)[k].item != ""
    ensures Strip(StoredRequests(items, prices)[k].item) == StoredRequests(items, prices)[k].item
  {
    var r := StoredRequests(items, prices)[k];
    var ls := Lines(items, prices, |items|);
    assert r in ls && IsStored(r) by {
      FilterMembers(ls, IsStored);
    }
    var i :| 0 <= i < |ls| && ls[i] == r;
    assert r.item == Strip(items[i]);
    StripIdempotent(items[i]);
  }

  /** A line whose text is not blank is stored, stripped and with its price. */
  lemma NotBlankIsStored(items: seq<string>, prices: seq<string>, i: nat)
    requires i < |items| && Strip(items[i]) != ""
    ensures Request(Strip(items[i]), PriceAt(prices, i)) in StoredRequests(items, prices)
  {
    var ls := Lines(items, prices, |items|);
    FilterMembers(ls, IsStored);
    assert ls[i] == Request(Strip(items[i]), PriceAt(prices, i));
    assert IsStored(ls[i]);
  }

  /** Every stored line comes from a posted line whose text is not blank. */
  lemma StoredIsNotBlank(items: seq<string>, prices: seq<string>, r: Request)
    requires r in StoredRequests(items, prices)
    ensures exists j :: 0 <= j < |items| && Strip(items[j]) != "" &&
                        r == Request(Strip(items[j]), PriceAt(prices, j))
  {
    var ls := Lines(items, prices, |items|);
    var k :| 0 <= k < |StoredRequests(items, prices)| && StoredRequests(items, prices)[k] == r;
    assert r in ls && IsStored(r) by {
      FilterMembers(ls, IsStored);
    }
    var j :| 0 <= j < |ls| && ls[j] == r;
    assert ls[j] == Request(Strip(items[j]), PriceAt(prices, j));
  }

  /** Extra blank lines at the end of the form change neither the stored list
      nor its total. */
  lemma {:induction false} BlankLinesChangeNothing(items: seq<string>, blanks: seq<string>, prices: seq<string>)
    requires forall i :: 0 <= i < |blanks| ==> Strip(blanks[i]) == ""
    ensures StoredRequests(items + blanks, prices) == StoredRequests(items, prices)
  {
    var ls := Lines(items + blanks, prices, |items + blanks|);
    var head := Lines(items, prices, |items|);
    var tail := ls[|items|..];
    assert Filter(tail, IsStored) == [] by {
      BlankTailNotStored(items, blanks, prices);
      FilterAllOrNothing(tail, IsStored);
    }
    assert Filter(ls, IsStored) == Filter(head, IsStored) + Filter(tail, IsStored) by {
      LinesSplit(items, blanks, prices);
      FilterAppend(head, tail, IsStored);
    }
    assert Filter(head, IsStored) + [] == Filter(head, IsStored);
  }

  /** The lines of a longer form start with the lines of the shorter one. */
  lemma LinesSplit(items: seq<string>, blanks: seq<string>, prices: seq<string>)
    ensures var ls := Lines(items + blanks, prices, |items + blanks|);
            ls == Lines(items, prices, |items|) + ls[|items|..]
  {
    var ls := Lines(items + blanks, prices, |items + blanks|);
    var head := Lines(items, prices, |items|);
    forall k | 0 <= k < |items| ensures ls[k] == head[k] {
      assert (items + blanks)[k] == items[k];
    }
    assert ls == head + ls[|items|..];
  }

  /** The lines of the appended blanks are not stored. */
  lemma BlankTailNotStored(items: seq<string>, blanks: seq<string>, prices: seq<string>)
    requires forall i :: 0 <= i < |blanks| ==> Strip(blanks[i]) == ""
    ensures var tail := Lines(items + blanks, prices, |items + blanks|)[|items|..];
            forall i :: 0 <= i < |tail| ==> !IsStored(tail[i])
  {
    var ls := Lines(items + blanks, prices, |items + blanks|);
    var tail := ls[|items|..];
    forall i | 0 <= i < |tail| ensures !IsStored(tail[i]) {
      assert tail[i] == ls[|items| + i];
      assert (items + blanks)[|items| + i] == blanks[i];
    }
  }

  /** `int(nights or 1)` on the posted nights: an absent field reads as the
      integer 1, the empty text as 1. None where `int` raises. */
  function NightsFactorAsWritten(nights: Option<string>): Option<int> {
    match nights
    case None => Some(1)
    case Some(t) => if t == "" then Some(1) else ParseInt(t)
  }

  /** `int(nights or 1)` on the stored integer, as `generate_guest_pdf`
      reads it: 0 nights bill as 1. */
  function BilledNights(n: int): (r: int)
    ensures n != 0 ==> r == n
    ensures r != 0
  {
    if n == 0 then 1 else n
  }

  /** The integer the nights column stores: `int` of the posted text (the empty
      text is rejected), or 1 when the field was not posted. */
  function StoredNights(nights: Option<string>): Option<int> {
    match nights
    case None => Some(1)
    case Some(t) => ParseInt(t)
  }

  /** `room_rate * nights`. */
  function RoomCharge(rate: real, nights: int): real {
    rate * nights as real
  }

  /** The stored total as the editor computes it. */
  function FolioTotalAsWritten(rate: real, nights: Option<string>, reqs: seq<Request>): Option<real> {
    match NightsFactorAsWritten(nights)
    case None => None
    case Some(n) => Some(RoomCharge(rate, n) + PricesSum(reqs))
  }

  /** The stored total with 0 nights billed as 1, as `generate_guest_pdf` does. */
  function FolioTotal(rate: real, nights: Option<string>, reqs: seq<Request>): (r: Option<real>)
    ensures r.Some? <==> NightsFactorAsWritten(nights).Some?
  {
    match NightsFactorAsWritten(nights)
    case None => None
    case Some(n) => Some(RoomCharge(rate, BilledNights(n)) + PricesSum(reqs))
  }

  /** The two totals differ only where the posted nights read as 0. */
  lemma FolioTotalAgreesAwayFromZero(rate: real, nights: Option<string>, reqs: seq<Request>)
    requires NightsFactorAsWritten(nights) != Some(0)
    ensures FolioTotal(rate, nights, reqs) == FolioTotalAsWritten(rate, nights, reqs)
  {
    match NightsFactorAsWritten(nights)
    case None =>
    case Some(n) =>
      assert BilledNights(n) == n;
      assert FolioTotal(rate, nights, reqs) == Some(RoomCharge(rate, BilledNights(n)) + PricesSum(reqs));
      assert FolioTotalAsWritten(rate, nights, reqs) == Some(RoomCharge(rate, n) + PricesSum(reqs));
  }

  /** The grand total `generate_guest_pdf` recomputes from the record before
      it renders (the rendering itself raises; no registration is printed). */
  function PdfTotal(g: Guest): real {
    RoomCharge(g.roomRate, BilledNights(g.nights)) + PricesSum(g.requests)
  }

  /** The total, stored for a rate and a nights field, is what
      `generate_guest_pdf` recomputes from the record that stores them. */
  lemma {:induction false} FolioRoundTrip(g: Guest, rate: real, nights: Option<string>, reqs: seq<Request>)
    requires StoredNights(nights) == Some(g.nights) && g.roomRate == rate && g.requests == reqs
    ensures FolioTotal(rate, nights, reqs) == Some(PdfTotal(g))
  {
    match nights
    case None =>
      assert g.nights == 1 && NightsFactorAsWritten(nights) == Some(1);
    case Some(t) =>
      ParseIntEmpty();
      assert NightsFactorAsWritten(nights) == Some(g.nights);
  }

  /** As written, a posted nights value of "0" stores a total with no room
      charge while `generate_guest_pdf` bills one night. */
  lemma FolioRoundTripFailsAsWritten()
    ensures StoredNights(Some("0")) == Some(0)
    ensures FolioTotalAsWritten(1500.0, Some("0"), []) == Some(0.0)
    ensures PdfTotal(NewRegistration(1, 0, "WALKIN", "", "", "", "", "", None, "", "")
                       .(nights := 0, roomRate := 1500.0)) == 1500.0
  {
    ParseNatText(0);
    assert NatText(0) == "0";
  }

  /** `int(nights or 0)` for the date arithmetic: an absent field reads as 1,
      the empty text as 0. None where `int` raises. */
  function StayLength(nights: Option<string>): Option<int> {
    match nights
    case None => Some(1)
    case Some(t) => if t == "" then Some(0) else ParseInt(t)
  }

  /** The check-out date after an edit: with a check-in date, the check-in
      plus the nights (the check-in itself when they do not parse); without
      one, the check-out date the record already had. */
  function CheckOutAfter(checkIn: Option<int>, nights: Option<string>, previous: Option<int>): Option<int> {
    if checkIn.None? then previous
    else match StayLength(nights)
      case None => checkIn
      case Some(k) => Some(checkIn.value + k)
  }

  /** With a check-in date, the stay is exactly the posted number of nights
      long, and empty nights give a check-out on the check-in day; without a
      check-in date nothing is derived. */
  lemma CheckOutDerivation(ci: int, n: nat, previous: Option<int>)
    ensures CheckOutAfter(Some(ci), Some(NatText(n)), previous) == Some(ci + n)
    ensures CheckOutAfter(Some(ci), Some(""), previous) == Some(ci)
    ensures CheckOutAfter(Some(ci), None, previous) == Some(ci + 1)
    ensures CheckOutAfter(None, Some(NatText(n)), previous) == previous
  {
    ParseNatText(n);
  }

  lemma PriceOfHundred()
    ensures PriceAt(["100"], 0) == 100.0
  {
    assert NatText(1) == "1";
    assert NatText(10) == "10";
    assert NatText(100) == "100";
    LenientCoercion("", 100);
    PriceIsLenient(["100"], 0);
  }

  /** A rate of 1500 for three nights with one request posted at "100"
      stores 4600. */
  lemma ThreeNightsWithExtraBed()
    ensures FolioTotalAsWritten(1500.0, Some("3"), [Request("Extra bed", PriceAt(["100"], 0))]) == Some(4600.0)
  {
    PriceOfHundred();
    assert NightsFactorAsWritten(Some("3")) == Some(3) by {
      ParseNatText(3);
      assert NatText(3) == "3";
    }
    assert RoomCharge(1500.0, 3) == 4500.0;
    assert PricesSum([Request("Extra bed", 100.0)]) == 100.0 by {
      assert [Request("Extra bed", 100.0)][..0] == [];
    }
  }
}
