/**
 * Invoices and payments: creating invoices with count-based numbers, generating the monthly
 * one, and the payment ledger. An invoice's id is its position in the table; nothing is deleted.
 */
module Billing {
  import opened Options
  import opened InvoiceNumber
  import Calendar
  import opened DueDate

  type Id = nat

  datatype InvoiceStatus = Draft | Pending | Paid | Overdue | Cancelled

  /** `issued` is the month of the clock at creation. */
  datatype Invoice = Invoice(
    tenant: Id, client: Id, number: string, issued: Month, period: Period, due: Calendar.Date,
    total: int, paid: int, status: InvoiceStatus, paidAt: Option<int>)

  datatype Payment = Payment(invoice: Id, amount: int)

  datatype Books = Books(invoices: seq<Invoice>, payments: seq<Payment>)

  datatype Item = Item(quantity: int, unitPrice: int)

  datatype InvoiceRequest = Request(tenant: Id, client: Id, period: Period, due: Calendar.Date, items: seq<Item>, tax: int, discount: int)

  // ---------- creating an invoice ----------

  function Amount(item: Item): int {
    item.unitPrice * if item.quantity <= 0 then 1 else item.quantity
  }

  function Subtotal(items: seq<Item>): int {
    if items == [] then 0 else Subtotal(items[..|items| - 1]) + Amount(items[|items| - 1])
  }

  function Total(r: InvoiceRequest): int {
    Subtotal(r.items) + r.tax - r.discount
  }

  /** The subtotal is a sum over the items, a quantity below one counting as one; tax is added and the discount taken off. */
  lemma {:induction false} SubtotalAdds(a: seq<Item>, b: seq<Item>)
    ensures Subtotal(a + b) == Subtotal(a) + Subtotal(b)
    ensures Subtotal([]) == 0
    ensures forall i: Item :: Subtotal([i]) == if i.quantity <= 0 then i.unitPrice else i.unitPrice * i.quantity
    decreases |b|
  {
    forall i: Item ensures Subtotal([i]) == if i.quantity <= 0 then i.unitPrice else i.unitPrice * i.quantity {
      assert [i][..0] == [];
      assert Subtotal([i]) == Subtotal([]) + Amount(i);
    }
    if b == [] {
      assert a + b == a;
    } else {
      var front := b[..|b| - 1];
      assert (a + b)[..|a + b| - 1] == a + front;
      SubtotalAdds(a, front);
    }
  }

  /** SELECT COUNT(*) ... WHERE tenant_id = t AND invoice_number LIKE prefix%. */
  function CountIssued(invoices: seq<Invoice>, tenant: Id, m: Month): nat {
    if invoices == [] then 0
    else
      var last := invoices[|invoices| - 1];
      CountIssued(invoices[..|invoices| - 1], tenant, m) + if last.tenant == tenant && HasPrefix(last.number, m) then 1 else 0
  }

  function NextNumber(invoices: seq<Invoice>, tenant: Id, m: Month): string {
    Number(m, CountIssued(invoices, tenant, m) + 1)
  }

  /** UNIQUE (tenant_id, invoice_number) */
  predicate NumberFree(invoices: seq<Invoice>, tenant: Id, number: string) {
    forall i :: 0 <= i < |invoices| ==> !(invoices[i].tenant == tenant && invoices[i].number == number)
  }

  function NewInvoice(invoices: seq<Invoice>, r: InvoiceRequest, m: Month): Invoice {
    Invoice(r.tenant, r.client, NextNumber(invoices, r.tenant, m), m, r.period, r.due, Total(r), 0, Pending, None)
  }

  function WithInvoice(invoices: seq<Invoice>, r: InvoiceRequest, m: Month): seq<Invoice> {
    if NumberFree(invoices, r.tenant, NextNumber(invoices, r.tenant, m)) then invoices + [NewInvoice(invoices, r, m)] else invoices
  }

  // ---------- the monthly invoice ----------

  /** A client row: `price` is None when neither a package nor a fee is configured. */
  datatype ClientRow = ClientRow(tenant: Id, client: Id, template: bool, dueDay: int, createdAt: Calendar.Date, price: Option<int>, active: bool)

  predicate HasAny(invoices: seq<Invoice>, tenant: Id, client: Id) {
    exists i :: 0 <= i < |invoices| && invoices[i].tenant == tenant && invoices[i].client == client
  }

  predicate Covers(inv: Invoice, tenant: Id, client: Id, period: Period) {
    inv.tenant == tenant && inv.client == client && inv.period == period
  }

  predicate ExistsFor(invoices: seq<Invoice>, tenant: Id, client: Id, period: Period) {
    exists i :: 0 <= i < |invoices| && Covers(invoices[i], tenant, client, period)
  }

  function DueFor(invoices: seq<Invoice>, c: ClientRow, now: Instant): Calendar.Date {
    if c.template && !HasAny(invoices, c.tenant, c.client) then c.createdAt else ComputeDueDate(now, c.dueDay).date
  }

  function MonthlyRequest(c: ClientRow, due: Calendar.Date): InvoiceRequest
    requires c.price.Some?
  {
    Request(c.tenant, c.client, PeriodOf(due), due, [Item(1, c.price.value)], 0, 0)
  }

  function MonthOf(d: Calendar.Date): Month
    requires d.y >= 0 && d.m >= 0
  {
    Month(d.y, d.m)
  }

  predicate ValidNow(now: Instant) {
    ValidInstant(now) && now.date.y >= 0
  }

  /** GenerateMonthlyInvoice: nothing without a price or when the period is covered. */
  function AfterGenerate(invoices: seq<Invoice>, c: ClientRow, now: Instant): seq<Invoice>
    requires ValidNow(now)
  {
    if c.price.None? then invoices
    else
      var due := DueFor(invoices, c, now);
      if ExistsFor(invoices, c.tenant, c.client, PeriodOf(due)) then invoices
      else WithInvoice(invoices, MonthlyRequest(c, due), MonthOf(now.date))
  }

  // ---------- payments and status changes ----------

  function PaidTotal(payments: seq<Payment>, id: Id): int {
    if payments == [] then 0
    else
      var last := payments[|payments| - 1];
      PaidTotal(payments[..|payments| - 1], id) + if last.invoice == id then last.amount else 0
  }

  /** The total is a sum: payments one after the other add up, and each counts its amount towards its own invoice. */
  lemma {:induction false} PaidTotalAdds(a: seq<Payment>, b: seq<Payment>, id: Id)
    ensures PaidTotal(a + b, id) == PaidTotal(a, id) + PaidTotal(b, id)
    ensures PaidTotal([], id) == 0
    ensures forall p: Payment :: PaidTotal([p], id) == if p.invoice == id then p.amount else 0
    decreases |b|
  {
    forall p: Payment ensures PaidTotal([p], id) == if p.invoice == id then p.amount else 0 {
      assert [p][..0] == [];
    }
    if b == [] {
      assert a + b == a;
    } else {
      var front := b[..|b| - 1];
      assert (a + b)[..|a + b| - 1] == a + front;
      PaidTotalAdds(a, front, id);
    }
  }

  predicate Payable(b: Books, id: Id) {
    id < |b.invoices| && b.invoices[id].status != Paid && b.invoices[id].status != Cancelled
  }

  /** RecordPayment: insert the payment, read back the total, settle the status if it covers the invoice. */
  function AfterPayment(b: Books, id: Id, amount: int, now: int): Books
    requires Payable(b, id)
  {
    var payments := b.payments + [Payment(id, amount)];
    var total := PaidTotal(payments, id);
    var inv := b.invoices[id];
    var full := total >= inv.total;
    Books(b.invoices[id := inv.(paid := total, status := if full then Paid else inv.status, paidAt := if full then Some(now) else None)], payments)
  }

  datatype Op =
    | Create(request: InvoiceRequest, month: Month)
    | Generate(row: ClientRow, now: Instant)
    | Pay(id: Id, amount: int, at: int)
    | Cancel(id: Id)
    | MarkOverdue(id: Id)

  predicate ValidOp(op: Op) {
    match op
    case Create(_, m) => ValidMonth(m)
    case Generate(_, now) => ValidNow(now)
    case _ => true
  }

  function WithStatus(b: Books, id: Id, st: InvoiceStatus): Books {
    if id < |b.invoices| then b.(invoices := b.invoices[id := b.invoices[id].(status := st)]) else b
  }

  function Apply(b: Books, op: Op): Books
    requires ValidOp(op)
  {
    match op
    case Create(r, m) => b.(invoices := WithInvoice(b.invoices, r, m))
    case Generate(c, now) => b.(invoices := AfterGenerate(b.invoices, c, now))
    case Pay(id, amount, now) => if Payable(b, id) then AfterPayment(b, id, amount, now) else b
    case Cancel(id) => WithStatus(b, id, Cancelled)
    case MarkOverdue(id) => WithStatus(b, id, Overdue)
  }

  // ---------- numbers ----------

  /** Every invoice carries the number computed from those before it. */
  predicate Numbered(invoices: seq<Invoice>) {
    invoices == [] ||
    var front, last := invoices[..|invoices| - 1], invoices[|invoices| - 1];
    Numbered(front) && ValidMonth(last.issued) && last.number == NextNumber(front, last.tenant, last.issued)
  }

  predicate IssuedIn(inv: Invoice, tenant: Id, m: Month) {
    inv.tenant == tenant && inv.issued == m
  }

  /** Counting by prefix is counting the tenant's invoices issued in that month. */
  lemma CountByMonth(invoices: seq<Invoice>, tenant: Id, m: Month)
    requires Numbered(invoices) && invoices != [] && ValidMonth(m)
    ensures CountIssued(invoices, tenant, m) ==
      CountIssued(invoices[..|invoices| - 1], tenant, m) + if IssuedIn(invoices[|invoices| - 1], tenant, m) then 1 else 0
  {
    hide Number, HasPrefix, Numbered;
    var front, last := invoices[..|invoices| - 1], invoices[|invoices| - 1];
    LastNumber(invoices);
    PrefixMatchesItsMonth(last.issued, m, CountIssued(front, last.tenant, last.issued) + 1);
  }

  lemma LastNumber(invoices: seq<Invoice>)
    requires Numbered(invoices) && invoices != []
    ensures var front, last := invoices[..|invoices| - 1], invoices[|invoices| - 1];
      Numbered(front) && ValidMonth(last.issued) && last.number == Number(last.issued, CountIssued(front, last.tenant, last.issued) + 1)
  {
    hide Number;
  }

  lemma {:induction false} NumberAt(invoices: seq<Invoice>, i: nat)
    requires Numbered(invoices) && i < |invoices|
    ensures ValidMonth(invoices[i].issued)
    ensures invoices[i].number == Number(invoices[i].issued, CountIssued(invoices[..i], invoices[i].tenant, invoices[i].issued) + 1)
    decreases |invoices|
  {
    hide Numbered, CountIssued, Number;
    LastNumber(invoices);
    if i < |invoices| - 1 {
      NumberAt(invoices[..|invoices| - 1], i);
      assert invoices[..|invoices| - 1][..i] == invoices[..i];
    }
  }

  /** The count grows with each invoice issued in the month. */
  lemma {:induction false} CountGrows(invoices: seq<Invoice>, i: nat, tenant: Id, m: Month)
    requires Numbered(invoices) && ValidMonth(m) && i < |invoices|
    ensures CountIssued(invoices[..i], tenant, m) + (if IssuedIn(invoices[i], tenant, m) then 1 else 0) <= CountIssued(invoices, tenant, m)
    decreases |invoices|
  {
    hide Numbered, CountIssued, Number;
    var n := |invoices| - 1;
    LastNumber(invoices);
    CountByMonth(invoices, tenant, m);
    if i < n {
      CountGrows(invoices[..n], i, tenant, m);
      assert invoices[..n][..i] == invoices[..i];
    }
  }

  lemma NumberedPrefix(invoices: seq<Invoice>, n: nat)
    requires Numbered(invoices) && n <= |invoices|
    ensures Numbered(invoices[..n])
    decreases |invoices|
  {
    hide CountIssued, Number;
    if n == |invoices| {
      assert invoices[..n] == invoices;
    } else {
      NumberedPrefix(invoices[..|invoices| - 1], n);
      assert invoices[..|invoices| - 1][..n] == invoices[..n];
    }
  }

  /** No two invoices of a tenant have the same number. */
  lemma NumbersDistinct(invoices: seq<Invoice>, i: nat, j: nat)
    requires Numbered(invoices) && i < j < |invoices| && invoices[i].tenant == invoices[j].tenant
    ensures invoices[i].number != invoices[j].number
  {
    hide Numbered, CountIssued, Number;
    var a, b, t := invoices[i], invoices[j], invoices[i].tenant;
    NumberedPrefix(invoices, j);
    NumberAt(invoices, i);
    NumberAt(invoices, j);
    CountGrows(invoices[..j], i, t, a.issued);
    assert invoices[..j][..i] == invoices[..i];
    NumberInjective(a.issued, CountIssued(invoices[..i], t, a.issued) + 1, b.issued, CountIssued(invoices[..j], t, b.issued) + 1);
  }

  lemma {:induction false} FindNumber(invoices: seq<Invoice>, tenant: Id, m: Month, k: nat) returns (i: nat)
    requires Numbered(invoices) && ValidMonth(m) && 1 <= k <= CountIssued(invoices, tenant, m)
    ensures i < |invoices| && invoices[i].tenant == tenant && invoices[i].number == Number(m, k)
    decreases |invoices|
  {
    hide Numbered, CountIssued, Number;
    NoneIssued(tenant, m);
    var n := |invoices| - 1;
    LastNumber(invoices);
    CountByMonth(invoices, tenant, m);
    if k <= CountIssued(invoices[..n], tenant, m) {
      i := FindNumber(invoices[..n], tenant, m, k);
    } else {
      i := n;
    }
  }

  lemma NoneIssued(tenant: Id, m: Month)
    ensures CountIssued([], tenant, m) == 0
  {
  }

  /** The tenant's numbers with a month's prefix are exactly that prefix with the counts from 1 to how many there are. */
  lemma NumbersOfMonth(invoices: seq<Invoice>, tenant: Id, m: Month, number: string)
    requires Numbered(invoices) && ValidMonth(m)
    ensures (exists i :: 0 <= i < |invoices| && invoices[i].tenant == tenant && invoices[i].number == number && HasPrefix(number, m))
      <==> (exists k :: 1 <= k <= CountIssued(invoices, tenant, m) && number == Number(m, k))
  {
    hide Numbered, CountIssued, Number, HasPrefix;
    if i :| 0 <= i < |invoices| && invoices[i].tenant == tenant && invoices[i].number == number && HasPrefix(number, m) {
      NumberAt(invoices, i);
      CountGrows(invoices, i, tenant, m);
      var k := CountIssued(invoices[..i], tenant, invoices[i].issued) + 1;
      PrefixMatchesItsMonth(invoices[i].issued, m, k);
      assert 1 <= k <= CountIssued(invoices, tenant, m) && number == Number(m, k);
    }
    if k :| 1 <= k <= CountIssued(invoices, tenant, m) && number == Number(m, k) {
      var i := FindNumber(invoices, tenant, m, k);
      PrefixMatchesItsMonth(m, m, k);
    }
  }

  /** So the uniqueness constraint never refuses an invoice. */
  lemma NumberIsFree(invoices: seq<Invoice>, tenant: Id, m: Month)
    requires Numbered(invoices) && ValidMonth(m)
    ensures NumberFree(invoices, tenant, NextNumber(invoices, tenant, m))
  {
    hide Numbered, CountIssued, Number;
    forall i | 0 <= i < |invoices| && invoices[i].tenant == tenant
      ensures invoices[i].number != NextNumber(invoices, tenant, m)
    {
      var a := invoices[i].issued;
      NumberAt(invoices, i);
      CountGrows(invoices, i, tenant, a);
      NumberInjective(a, CountIssued(invoices[..i], tenant, a) + 1, m, CountIssued(invoices, tenant, m) + 1);
    }
  }

  lemma WithInvoiceNumbered(invoices: seq<Invoice>, r: InvoiceRequest, m: Month)
    requires Numbered(invoices) && ValidMonth(m)
    ensures WithInvoice(invoices, r, m) == invoices + [NewInvoice(invoices, r, m)]
    ensures Numbered(WithInvoice(invoices, r, m))
  {
    hide CountIssued, Number, NumberFree, Subtotal;
    NumberIsFree(invoices, r.tenant, m);
    var longer := invoices + [NewInvoice(invoices, r, m)];
    assert longer[..|longer| - 1] == invoices;
  }

  /** Changing other columns of one row does not touch the numbers. */
  lemma {:induction false} CountIgnoresStatus(invoices: seq<Invoice>, id: nat, inv: Invoice, tenant: Id, m: Month)
    requires id < |invoices| && inv.tenant == invoices[id].tenant && inv.number == invoices[id].number
    ensures CountIssued(invoices[id := inv], tenant, m) == CountIssued(invoices, tenant, m)
    decreases |invoices|
  {
    hide HasPrefix;
    var n := |invoices| - 1;
    if id < n {
      CountIgnoresStatus(invoices[..n], id, inv, tenant, m);
      assert invoices[id := inv][..n] == invoices[..n][id := inv];
    } else {
      assert invoices[id := inv][..n] == invoices[..n];
    }
  }

  lemma {:induction false} UpdateNumbered(invoices: seq<Invoice>, id: nat, inv: Invoice)
    requires Numbered(invoices) && id < |invoices|
    requires inv.tenant == invoices[id].tenant && inv.number == invoices[id].number && inv.issued == invoices[id].issued
    ensures Numbered(invoices[id := inv])
    decreases |invoices|
  {
    hide CountIssued, Number;
    var n := |invoices| - 1;
    if id < n {
      var last := invoices[n];
      UpdateNumbered(invoices[..n], id, inv);
      CountIgnoresStatus(invoices[..n], id, inv, last.tenant, last.issued);
      assert invoices[id := inv][..n] == invoices[..n][id := inv];
    } else {
      assert invoices[id := inv][..n] == invoices[..n];
    }
  }

  lemma StepNumbered(b: Books, op: Op)
    requires Numbered(b.invoices) && ValidOp(op)
    ensures Numbered(Apply(b, op).invoices)
  {
    hide Numbered;
    match op {
      case Create(r, m) => WithInvoiceNumbered(b.invoices, r, m);
      case Generate(c, now) =>
        if c.price.Some? {
          WithInvoiceNumbered(b.invoices, MonthlyRequest(c, DueFor(b.invoices, c, now)), MonthOf(now.date));
        }
      case _ =>
        if op.id < |b.invoices| {
          UpdateNumbered(b.invoices, op.id, Apply(b, op).invoices[op.id]);
          assert Apply(b, op).invoices == b.invoices[op.id := Apply(b, op).invoices[op.id]];
        }
    }
  }

  // ---------- the ledger ----------

  function LastPayment(payments: seq<Payment>, id: Id): Option<int> {
    if payments == [] then None
    else if payments[|payments| - 1].invoice == id then Some(payments[|payments| - 1].amount)
    else LastPayment(payments[..|payments| - 1], id)
  }

  predicate BalancedAt(b: Books, i: Id)
    requires i < |b.invoices|
  {
    var inv := b.invoices[i];
    && inv.paid == PaidTotal(b.payments, i)
    && (inv.status == Paid ==> inv.paid >= inv.total)
    && (inv.status == Pending || inv.status == Overdue ==> inv.paid < inv.total)
    && inv.status != Draft
    && (inv.paidAt.Some? <==> inv.paid >= inv.total)
    && (inv.paid >= inv.total ==> LastPayment(b.payments, i).Some? && inv.paid - inv.total < LastPayment(b.payments, i).value)
  }

  /** Paid amounts are the sums of payments, statuses and payment times tell whether they cover the total, and an overpayment is less than the last payment. */
  predicate Balanced(b: Books) {
    && (forall i :: 0 <= i < |b.invoices| ==> BalancedAt(b, i))
    && (forall p :: 0 <= p < |b.payments| ==> b.payments[p].invoice < |b.invoices|)
  }

  /** The invoice this operation inserts, if any, has a positive total. */
  predicate PositiveTotal(b: Books, op: Op) {
    match op
    case Create(r, _) => Total(r) > 0
    case Generate(c, now) =>
      c.price.Some? && !ExistsFor(b.invoices, c.tenant, c.client, PeriodOf(DueFor(b.invoices, c, now))) ==> c.price.value > 0
    case _ => true
  }

  lemma {:induction false} NoPayments(payments: seq<Payment>, id: Id)
    requires forall p :: 0 <= p < |payments| ==> payments[p].invoice != id
    ensures PaidTotal(payments, id) == 0 && LastPayment(payments, id) == None
  {
    if payments != [] {
      NoPayments(payments[..|payments| - 1], id);
    }
  }

  /** An operation keeps the ledger balanced exactly when new totals are positive and overdue marks go to unpaid invoices. */
  lemma StepBalanced(b: Books, op: Op)
    requires Balanced(b) && Numbered(b.invoices) && ValidOp(op)
    ensures Balanced(Apply(b, op)) <==>
      && PositiveTotal(b, op)
      && (op.MarkOverdue? && op.id < |b.invoices| ==> b.invoices[op.id].paid < b.invoices[op.id].total)
  {
    hide Numbered, Balanced, NextNumber, PeriodOf, Apply;
    match op {
      case Create(r, m) => CreateBalanced(b, r, m);
      case Generate(c, now) => GenerateBalanced(b, c, now);
      case Pay(id, amount, now) => PayBalanced(b, id, amount, now);
      case Cancel(id) => MarkBalanced(b, op, id, Cancelled);
      case MarkOverdue(id) => MarkBalanced(b, op, id, Overdue);
    }
  }

  lemma CreateBalanced(b: Books, r: InvoiceRequest, m: Month)
    requires Balanced(b) && Numbered(b.invoices) && ValidMonth(m)
    ensures Balanced(b.(invoices := WithInvoice(b.invoices, r, m))) <==> Total(r) > 0
    ensures Apply(b, Create(r, m)) == b.(invoices := WithInvoice(b.invoices, r, m))
  {
    hide Numbered, Balanced, NextNumber, Subtotal, WithInvoice;
    WithInvoiceNumbered(b.invoices, r, m);
    CreationBalanced(b, b.(invoices := WithInvoice(b.invoices, r, m)));
  }

  lemma MonthlyTotal(c: ClientRow, due: Calendar.Date)
    requires c.price.Some?
    ensures Total(MonthlyRequest(c, due)) == c.price.value
  {
    var items := [Item(1, c.price.value)];
    assert items[..|items| - 1] == [];
    assert Subtotal(items) == Subtotal([]) + Amount(items[0]);
  }

  lemma GenerateBalanced(b: Books, c: ClientRow, now: Instant)
    requires Balanced(b) && Numbered(b.invoices) && ValidNow(now)
    ensures Balanced(Apply(b, Generate(c, now))) <==> PositiveTotal(b, Generate(c, now))
  {
    hide Numbered, Balanced, PeriodOf, WithInvoice, DueFor, ExistsFor;
    if c.price.Some? {
      var due := DueFor(b.invoices, c, now);
      var r := MonthlyRequest(c, due);
      MonthlyTotal(c, due);
      CreateBalanced(b, r, MonthOf(now.date));
    }
  }

  lemma PayBalanced(b: Books, id: Id, amount: int, now: int)
    requires Balanced(b)
    ensures Balanced(Apply(b, Pay(id, amount, now)))
  {
    if Payable(b, id) {
      PaymentBalanced(b, id, amount, now);
    }
  }

  lemma MarkBalanced(b: Books, op: Op, id: Id, st: InvoiceStatus)
    requires Balanced(b) && ((op == Cancel(id) && st == Cancelled) || (op == MarkOverdue(id) && st == Overdue))
    ensures Balanced(Apply(b, op)) <==> (st == Overdue && id < |b.invoices| ==> b.invoices[id].paid < b.invoices[id].total)
  {
    hide Balanced;
    if id < |b.invoices| {
      StatusBalanced(b, id, st);
    }
  }

  /** A mark on a covered invoice, reached from empty books: paid in full, and yet overdue. */
  lemma PaidMarkedOverdue(m: Month, r: InvoiceRequest, now: int)
    requires ValidMonth(m) && Total(r) > 0
    ensures var b := After(Books([], []), [Create(r, m), Pay(0, Total(r), now), MarkOverdue(0)]);
      |b.invoices| == 1 && b.invoices[0].status == Overdue && b.invoices[0].paid == b.invoices[0].total && !Balanced(b)
  {
    hide NextNumber, Total;
    var run := [Create(r, m), Pay(0, Total(r), now), MarkOverdue(0)];
    var inv := NewInvoice([], r, m);
    var paid := inv.(paid := Total(r), status := Paid, paidAt := Some(now));
    var payments := [Payment(0, Total(r))];
    assert payments[..0] == [] && [] + payments == payments;
    assert PaidTotal(payments, 0) == Total(r);
    assert Apply(Books([], []), run[0]) == Books([inv], []);
    assert Apply(Books([inv], []), run[1]) == Books([paid], payments);
    var b := Books([paid.(status := Overdue)], payments);
    assert Apply(Books([paid], payments), run[2]) == b;
    assert run[1..][1..] == run[2..] && run[2..][1..] == [];
    assert After(Books([], []), run) == After(Books([paid], payments), run[2..]) == b;
    assert !BalancedAt(b, 0);
  }

  /** A mark on a cancelled invoice: it can be paid again. */
  lemma CancelledMarkedOverdue(m: Month, r: InvoiceRequest)
    requires ValidMonth(m)
    ensures var b := After(Books([], []), [Create(r, m), Cancel(0), MarkOverdue(0)]);
      |b.invoices| == 1 && b.invoices[0].status == Overdue && Payable(b, 0)
  {
    hide NextNumber, Total;
    var run := [Create(r, m), Cancel(0), MarkOverdue(0)];
    var inv := NewInvoice([], r, m);
    assert Apply(Books([], []), run[0]) == Books([inv], []);
    assert Apply(Books([inv], []), run[1]) == Books([inv.(status := Cancelled)], []);
    assert Apply(Books([inv.(status := Cancelled)], []), run[2]) == Books([inv.(status := Overdue)], []);
    assert run[1..][1..] == run[2..] && run[2..][1..] == [];
    assert After(Books([], []), run) == After(Books([inv.(status := Cancelled)], []), run[2..]) == Books([inv.(status := Overdue)], []);
  }

  lemma StatusBalanced(b: Books, id: Id, st: InvoiceStatus)
    requires Balanced(b) && id < |b.invoices| && (st == Cancelled || st == Overdue)
    ensures Balanced(WithStatus(b, id, st)) <==> (st == Overdue ==> b.invoices[id].paid < b.invoices[id].total)
  {
    hide PaidTotal, LastPayment;
    var b' := WithStatus(b, id, st);
    assert BalancedAt(b, id);
    assert BalancedAt(b', id) <==> (st == Overdue ==> b.invoices[id].paid < b.invoices[id].total);
    forall i | 0 <= i < |b.invoices| && i != id ensures BalancedAt(b', i) {
      assert BalancedAt(b, i);
    }
  }

  lemma CreationBalanced(b: Books, b': Books)
    requires Balanced(b) && b'.payments == b.payments
    requires b' == b || (|b'.invoices| == |b.invoices| + 1 && b'.invoices[..|b.invoices|] == b.invoices)
    requires b' != b ==> var inv := b'.invoices[|b.invoices|]; inv.paid == 0 && inv.status == Pending && inv.paidAt == None
    ensures Balanced(b') <==> (b' == b || b'.invoices[|b.invoices|].total > 0)
  {
    if b' != b {
      var n := |b.invoices|;
      NoPayments(b.payments, n);
      forall i | 0 <= i < n ensures BalancedAt(b', i) {
        assert BalancedAt(b, i) && b'.invoices[i] == b'.invoices[..n][i];
      }
      assert BalancedAt(b', n) <==> b'.invoices[n].total > 0;
    }
  }

  lemma PaymentBalanced(b: Books, id: Id, amount: int, now: int)
    requires Balanced(b) && Payable(b, id)
    ensures Balanced(AfterPayment(b, id, amount, now))
  {
    var b' := AfterPayment(b, id, amount, now);
    assert b'.payments[..|b.payments|] == b.payments;
    forall i | 0 <= i < |b'.invoices| ensures BalancedAt(b', i) {
      assert BalancedAt(b, i);
    }
  }

  /** From balanced books a payment adds its amount to what is paid, and settles the invoice exactly when that covers it. */
  lemma PaymentFields(b: Books, id: Id, amount: int, now: int)
    requires Balanced(b) && Payable(b, id)
    ensures var before, paid := b.invoices[id], b.invoices[id].paid + amount;
      && AfterPayment(b, id, amount, now).payments == b.payments + [Payment(id, amount)]
      && AfterPayment(b, id, amount, now).invoices == b.invoices[id :=
           if paid >= before.total then before.(paid := paid, status := Paid, paidAt := Some(now)) else before.(paid := paid, paidAt := None)]
      && (paid >= before.total ==> paid - before.total < amount)
  {
    PaidTotalAdds(b.payments, [Payment(id, amount)], id);
    assert BalancedAt(b, id);
    hide PaidTotal, LastPayment;
  }

  /** Cancelled is absorbing for everything but an overdue mark on the cancelled invoice itself. */
  lemma StepStatus(b: Books, op: Op, id: Id)
    requires ValidOp(op) && id < |b.invoices|
    ensures id < |Apply(b, op).invoices|
    ensures b.invoices[id].status == Cancelled ==>
      (Apply(b, op).invoices[id].status == Cancelled <==> op != MarkOverdue(id))
    ensures b.invoices[id].status == Paid && op != Cancel(id) && op != MarkOverdue(id) ==> Apply(b, op).invoices[id].status == Paid
  {
    hide NextNumber, PeriodOf;
  }

  // ---------- runs ----------

  predicate ValidRun(run: seq<Op>) {
    forall i :: 0 <= i < |run| ==> ValidOp(run[i])
  }

  function After(b: Books, run: seq<Op>): Books
    requires ValidRun(run)
    decreases |run|
  {
    if run == [] then b else After(Apply(b, run[0]), run[1..])
  }

  /** Totals are positive, and overdue marks go to pending invoices, the only ones GetOverdueInvoices lists. */
  predicate Orderly(b: Books, op: Op)
    requires ValidOp(op)
  {
    && PositiveTotal(b, op)
    && (op.MarkOverdue? ==> op.id < |b.invoices| && b.invoices[op.id].status == Pending)
  }

  predicate OrderlyRun(b: Books, run: seq<Op>)
    requires ValidRun(run)
    decreases |run|
  {
    run == [] || (Orderly(b, run[0]) && OrderlyRun(Apply(b, run[0]), run[1..]))
  }

  /** Over every run: numbers stay those of Numbered. Over every orderly run: the ledger balances and cancelled stays cancelled. */
  lemma {:induction false} RunKeepsBooks(b: Books, run: seq<Op>)
    requires Numbered(b.invoices) && ValidRun(run)
    ensures Numbered(After(b, run).invoices)
    ensures Balanced(b) && OrderlyRun(b, run) ==> Balanced(After(b, run))
    decreases |run|
  {
    hide Numbered, Apply;
    if run != [] {
      var op := run[0];
      StepNumbered(b, op);
      if Balanced(b) && OrderlyRun(b, run) {
        StepBalanced(b, op);
        if op.MarkOverdue? {
          assert BalancedAt(b, op.id);
        }
      }
      RunKeepsBooks(Apply(b, op), run[1..]);
    }
  }

  lemma {:induction false} CancelledIsAbsorbing(b: Books, run: seq<Op>, id: Id)
    requires ValidRun(run) && OrderlyRun(b, run) && id < |b.invoices| && b.invoices[id].status == Cancelled
    ensures id < |After(b, run).invoices| && After(b, run).invoices[id].status == Cancelled
    decreases |run|
  {
    hide Apply;
    if run != [] {
      StepStatus(b, run[0], id);
      CancelledIsAbsorbing(Apply(b, run[0]), run[1..], id);
    }
  }

  // ---------- one invoice per client and period ----------

  predicate UniquePeriods(invoices: seq<Invoice>) {
    forall i, j :: 0 <= i < j < |invoices| ==> !Covers(invoices[j], invoices[i].tenant, invoices[i].client, invoices[i].period)
  }

  lemma GenerateKeepsUnique(invoices: seq<Invoice>, c: ClientRow, now: Instant)
    requires ValidNow(now) && UniquePeriods(invoices)
    ensures UniquePeriods(AfterGenerate(invoices, c, now))
  {
    hide NextNumber, PeriodOf;
  }

  /** A manual invoice keeps the rule exactly when its period is not yet covered. */
  lemma CreateKeepsUnique(invoices: seq<Invoice>, r: InvoiceRequest, m: Month)
    requires Numbered(invoices) && ValidMonth(m) && UniquePeriods(invoices)
    ensures UniquePeriods(WithInvoice(invoices, r, m)) <==> !ExistsFor(invoices, r.tenant, r.client, r.period)
  {
    hide Numbered, NextNumber;
    WithInvoiceNumbered(invoices, r, m);
    var longer := invoices + [NewInvoice(invoices, r, m)];
    if i :| 0 <= i < |invoices| && Covers(invoices[i], r.tenant, r.client, r.period) {
      assert Covers(longer[|invoices|], longer[i].tenant, longer[i].client, longer[i].period);
    }
  }

  lemma StatusKeepsUnique(b: Books, op: Op)
    requires ValidOp(op) && !op.Create? && !op.Generate? && UniquePeriods(b.invoices)
    ensures UniquePeriods(Apply(b, op).invoices)
  {
    var after := Apply(b, op).invoices;
    hide Apply;
    SamePeriods(b, op);
    forall i, j | 0 <= i < j < |after| ensures !Covers(after[j], after[i].tenant, after[i].client, after[i].period) {
      assert !Covers(b.invoices[j], b.invoices[i].tenant, b.invoices[i].client, b.invoices[i].period);
    }
  }

  lemma SamePeriods(b: Books, op: Op)
    requires ValidOp(op) && !op.Create? && !op.Generate?
    ensures var after := Apply(b, op).invoices;
      |after| == |b.invoices| && forall i :: 0 <= i < |after| ==>
        after[i].tenant == b.invoices[i].tenant && after[i].client == b.invoices[i].client && after[i].period == b.invoices[i].period
  {
    hide PaidTotal;
  }

  /** Of all operations only a manual invoice for a covered period breaks the rule. */
  lemma StepUnique(b: Books, op: Op)
    requires Numbered(b.invoices) && ValidOp(op) && UniquePeriods(b.invoices)
    ensures UniquePeriods(Apply(b, op).invoices) <==>
      (op.Create? ==> !ExistsFor(b.invoices, op.request.tenant, op.request.client, op.request.period))
  {
    hide Numbered, UniquePeriods, ExistsFor, WithInvoice, AfterGenerate;
    match op {
      case Create(r, m) => CreateKeepsUnique(b.invoices, r, m);
      case Generate(c, now) => GenerateKeepsUnique(b.invoices, c, now);
      case _ => StatusKeepsUnique(b, op);
    }
  }
}
