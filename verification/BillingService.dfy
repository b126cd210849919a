/** The billing service over its two tables. Every call on it is one sequential operation of Billing. */
module BillingService {
  import opened Options
  import opened InvoiceNumber
  import Calendar
  import opened DueDate
  import opened Billing

  /** The newest invoice of the client whose period lies in a given one, as InvoiceRepository.List returns it. */
  function Newest(invoices: seq<Invoice>, c: ClientRow, period: Period): Option<Invoice> {
    if invoices == [] then None
    else if Within(invoices[|invoices| - 1], c, period) then Some(invoices[|invoices| - 1])
    else Newest(invoices[..|invoices| - 1], c, period)
  }

  predicate Within(inv: Invoice, c: ClientRow, period: Period) {
    && inv.tenant == c.tenant && inv.client == c.client
    && !Calendar.Less(inv.period.start, period.start) && !Calendar.Less(period.end, inv.period.end)
  }

  predicate IsNewest(invoices: seq<Invoice>, c: ClientRow, period: Period, i: nat) {
    i < |invoices| && Within(invoices[i], c, period) && forall j :: i < j < |invoices| ==> !Within(invoices[j], c, period)
  }

  lemma {:induction false} NewestFound(invoices: seq<Invoice>, c: ClientRow, period: Period) returns (i: nat)
    requires ExistsFor(invoices, c.tenant, c.client, period)
    ensures IsNewest(invoices, c, period, i) && Newest(invoices, c, period) == Some(invoices[i])
  {
    var n := |invoices| - 1;
    if Within(invoices[n], c, period) {
      i := n;
    } else {
      StillCovered(invoices, c, period);
      i := NewestFound(invoices[..n], c, period);
    }
  }

  lemma StillCovered(invoices: seq<Invoice>, c: ClientRow, period: Period)
    requires ExistsFor(invoices, c.tenant, c.client, period) && !Within(invoices[|invoices| - 1], c, period)
    ensures ExistsFor(invoices[..|invoices| - 1], c.tenant, c.client, period)
  {
    var i :| 0 <= i < |invoices| && Covers(invoices[i], c.tenant, c.client, period);
    assert Covers(invoices[..|invoices| - 1][i], c.tenant, c.client, period);
  }

  class BillingService {
    var invoices: seq<Invoice>
    var payments: seq<Payment>

    function Contents(): Books
      reads this
    {
      Books(invoices, payments)
    }

    constructor ()
      ensures Contents() == Books([], [])
    {
      invoices, payments := [], [];
    }

    /** INSERT into the invoices table, refused when the tenant already has the number. */
    method Insert(inv: Invoice) returns (ok: bool)
      modifies this`invoices
      ensures ok == NumberFree(old(invoices), inv.tenant, inv.number)
      ensures invoices == if ok then old(invoices) + [inv] else old(invoices)
    {
      ok := true;
      for i := 0 to |invoices|
        invariant ok == NumberFree(invoices[..i], inv.tenant, inv.number)
      {
        if invoices[i].tenant == inv.tenant && invoices[i].number == inv.number {
          ok := false;
        }
      }
      assert invoices[..|invoices|] == invoices;
      if ok {
        invoices := invoices + [inv];
      }
    }

    method GenerateInvoiceNumber(tenant: Id, m: Month) returns (number: string)
      ensures number == NextNumber(invoices, tenant, m)
    {
      hide HasPrefix, Number;
      var count := 0;
      for i := 0 to |invoices|
        invariant count == CountIssued(invoices[..i], tenant, m)
      {
        assert invoices[..i + 1][..i] == invoices[..i];
        if invoices[i].tenant == tenant && HasPrefix(invoices[i].number, m) {
          count := count + 1;
        }
      }
      assert invoices[..|invoices|] == invoices;
      number := Number(m, count + 1);
    }

    method CreateInvoice(r: InvoiceRequest, m: Month) returns (created: Option<Invoice>)
      requires ValidMonth(m)
      modifies this`invoices
      ensures Contents() == Apply(old(Contents()), Create(r, m))
      ensures created == if |invoices| > |old(invoices)| then Some(NewInvoice(old(invoices), r, m)) else None
      ensures created.Some? ==>
        var inv := created.value;
        && invoices == old(invoices) + [inv]
        && inv.tenant == r.tenant && inv.client == r.client && inv.period == r.period && inv.due == r.due
        && inv.number == NextNumber(old(invoices), r.tenant, m) && inv.issued == m
        && inv.total == Subtotal(r.items) + r.tax - r.discount
        && inv.paid == 0 && inv.status == Pending && inv.paidAt == None
      ensures created.None? ==> invoices == old(invoices)
    {
      hide NextNumber, CountIssued, NumberFree;
      var number := GenerateInvoiceNumber(r.tenant, m);
      var subtotal := 0;
      for i := 0 to |r.items|
        invariant subtotal == Subtotal(r.items[..i])
      {
        assert r.items[..i + 1][..i] == r.items[..i];
        var quantity := r.items[i].quantity;
        if quantity <= 0 {
          quantity := 1;
        }
        subtotal := subtotal + r.items[i].unitPrice * quantity;
      }
      assert r.items[..|r.items|] == r.items;
      var inv := Invoice(r.tenant, r.client, number, m, r.period, r.due, subtotal + r.tax - r.discount, 0, Pending, None);
      var ok := Insert(inv);
      created := if ok then Some(inv) else None;
    }

    /** None stands for the error of a client without a price, or a refused number. */
    method GenerateMonthlyInvoice(c: ClientRow, now: Instant) returns (result: Option<Invoice>)
      requires ValidNow(now)
      modifies this`invoices
      ensures Contents() == Apply(old(Contents()), Generate(c, now))
      ensures result.Some? ==>
        var inv, month := result.value, PeriodOf(DueFor(old(invoices), c, now));
        && inv in invoices && inv.tenant == c.tenant && inv.client == c.client
        && !Calendar.Less(inv.period.start, month.start) && !Calendar.Less(month.end, inv.period.end)
      ensures result.None? ==> c.price.None? || !Numbered(old(invoices))
      ensures var before := old(invoices);
        var first := forall i :: 0 <= i < |before| && before[i].tenant == c.tenant ==> before[i].client != c.client;
        var due := if c.template && first then c.createdAt else ComputeDueDate(now, c.dueDay).date;
        var covered := exists i :: 0 <= i < |before| && before[i].tenant == c.tenant && before[i].client == c.client && before[i].period == PeriodOf(due);
        && (c.price.None? || covered ==> invoices == before)
        && (c.price.Some? && !covered && result.Some? ==>
              && invoices == before + [result.value]
              && result.value.tenant == c.tenant && result.value.client == c.client
              && result.value.number == NextNumber(before, c.tenant, Month(now.date.y, now.date.m))
              && result.value.due == due && result.value.period == PeriodOf(due)
              && result.value.total == c.price.value && result.value.paid == 0 && result.value.status == Pending)
    {
      hide NextNumber, NumberFree, PeriodOf, ComputeDueDate;
      if c.price.None? {
        return None;
      }
      var due := ComputeDueDate(now, c.dueDay).date;
      if c.template && !HasAny(invoices, c.tenant, c.client) {
        due := c.createdAt;
      }
      var period := PeriodOf(due);
      if ExistsFor(invoices, c.tenant, c.client, period) {
        ghost var i := NewestFound(invoices, c, period);
        return Newest(invoices, c, period);
      }
      ghost var before := invoices;
      var r := InvoiceRequest.Request(c.tenant, c.client, period, due, [Item(1, c.price.value)], 0, 0);
      result := CreateInvoice(r, MonthOf(now.date));
      if Numbered(before) {
        WithInvoiceNumbered(before, r, MonthOf(now.date));
      }
    }

    /** False when the invoice is unknown, paid or cancelled. */
    method RecordPayment(id: Id, amount: int, now: int) returns (ok: bool)
      modifies this
      ensures ok == Payable(old(Contents()), id)
      ensures Contents() == Apply(old(Contents()), Pay(id, amount, now))
      ensures ok <==> id < |old(invoices)| && old(invoices)[id].status != Paid && old(invoices)[id].status != Cancelled
      ensures !ok ==> Contents() == old(Contents())
      ensures ok ==> payments == old(payments) + [Payment(id, amount)] && |invoices| == |old(invoices)|
      ensures ok ==> forall i :: 0 <= i < |invoices| && i != id ==> invoices[i] == old(invoices)[i]
      ensures ok && Balanced(old(Contents())) ==>
        var before, paid := old(invoices)[id], old(invoices)[id].paid + amount;
        && invoices[id] == (if paid >= before.total then before.(paid := paid, status := Paid, paidAt := Some(now))
                            else before.(paid := paid, paidAt := None))
        && (paid >= before.total ==> paid - before.total < amount)
    {
      hide PaidTotal, Balanced;
      if Balanced(Contents()) && Payable(Contents(), id) {
        PaymentFields(Contents(), id, amount, now);
      }
      if id >= |invoices| || invoices[id].status == Paid || invoices[id].status == Cancelled {
        return false;
      }
      var needed := invoices[id].total;
      payments := payments + [Payment(id, amount)];
      var totalPaid := PaidTotal(payments, id);
      var paidAt := None;
      if totalPaid >= needed {
        paidAt := Some(now);
        UpdateStatus(id, Paid);
      }
      UpdatePaidAmount(id, totalPaid, paidAt);
      ok := true;
    }

    method UpdateStatus(id: Id, st: InvoiceStatus)
      modifies this`invoices
      ensures Contents() == WithStatus(old(Contents()), id, st)
    {
      if id < |invoices| {
        invoices := invoices[id := invoices[id].(status := st)];
      }
    }

    method UpdatePaidAmount(id: Id, amount: int, paidAt: Option<int>)
      modifies this`invoices
      ensures |invoices| == |old(invoices)|
      ensures invoices == if id < |invoices| then old(invoices)[id := old(invoices)[id].(paid := amount, paidAt := paidAt)] else old(invoices)
    {
      if id < |invoices| {
        invoices := invoices[id := invoices[id].(paid := amount, paidAt := paidAt)];
      }
    }

    method MarkInvoiceAsOverdue(id: Id)
      modifies this`invoices
      ensures Contents() == Apply(old(Contents()), MarkOverdue(id))
      ensures payments == old(payments) && |invoices| == |old(invoices)|
      ensures forall i :: 0 <= i < |invoices| ==> invoices[i] == if i == id then old(invoices)[i].(status := Overdue) else old(invoices)[i]
    {
      UpdateStatus(id, Overdue);
    }

    method CancelInvoice(id: Id)
      modifies this`invoices
      ensures Contents() == Apply(old(Contents()), Cancel(id))
      ensures payments == old(payments) && |invoices| == |old(invoices)|
      ensures forall i :: 0 <= i < |invoices| ==> invoices[i] == if i == id then old(invoices)[i].(status := Cancelled) else old(invoices)[i]
    {
      UpdateStatus(id, Cancelled);
    }
  }
}
