/** `src/components/board/PaymentTable.tsx`: the board's dues ledger, with the paid/unpaid toggle and
    the add-payment form. */
module PaymentTable {
  import opened Wrappers
  import opened Seqs

  /** A row of `payments`; `date_paid` is null while unpaid. The joined resident is left out. */
  datatype Payment = Payment(
    id: string, residentId: string, amount: real, period: string, status: string,
    datePaid: Option<string>, createdAt: string)

  /** The record `handleAddPayment` inserts; `amount` is the text handed to `parseFloat`. */
  datatype NewPayment = NewPayment(
    residentId: string, amount: string, period: string, status: string, datePaid: Option<string>)

  /** The store calls the component makes, in order. */
  datatype Call =
    | UpdatePayment(id: string, status: string, datePaid: Option<string>)
    | InsertPayment(record: NewPayment)
    | SelectPayments

  /** The status a toggle moves to: 'paid' becomes 'unpaid', anything else becomes 'paid'. */
  function ToggledStatus(status: string): (r: string)
    ensures r == "unpaid" <==> status == "paid"
    ensures r == "paid" <==> status != "paid"
  {
    if status == "paid" then "unpaid" else "paid"
  }

  /** The `date_paid` that goes with a status: the current time for 'paid', null otherwise. */
  function DatePaidFor(status: string, now: string): (r: Option<string>)
    ensures r.Some? <==> status == "paid"
    ensures r.Some? ==> r.value == now
  {
    if status == "paid" then Some(now) else None
  }

  /** A payment after its status was toggled at `now`. */
  function Toggled(p: Payment, now: string): (r: Payment)
    ensures r.id == p.id && r.residentId == p.residentId && r.amount == p.amount && r.period == p.period
    ensures r.createdAt == p.createdAt
    ensures r.status in {"paid", "unpaid"} && (r.status == "paid" <==> p.status != "paid")
    ensures r.datePaid.Some? <==> r.status == "paid"
  {
    var s := ToggledStatus(p.status);
    p.(status := s, datePaid := DatePaidFor(s, now))
  }

  /** Toggling twice gives back the status of a paid or unpaid payment; a paid one gets a new
      payment date. */
  lemma ToggleTwice(p: Payment, now1: string, now2: string)
    requires p.status in {"paid", "unpaid"}
    ensures Toggled(Toggled(p, now1), now2).status == p.status
    ensures p.status == "unpaid" ==> Toggled(Toggled(p, now1), now2).datePaid == None
    ensures p.status == "paid" ==> Toggled(Toggled(p, now1), now2).datePaid == Some(now2)
  {
  }

  /** The list after `togglePaymentStatus(payment)` at `now`: the status and date are computed once
      from `payment`, the row the button was rendered with, and written into every row with its id. */
  function ToggleIn(payments: seq<Payment>, payment: Payment, now: string): seq<Payment> {
    var s := ToggledStatus(payment.status);
    UpdateWhere(payments, (p: Payment) => p.id == payment.id, (p: Payment) => p.(status := s, datePaid := DatePaidFor(s, now)))
  }

  /** Only the payments with that id change, and only in status and date, which become the ones
      derived from `payment` (whatever the row held, even when `payment` is a stale copy); the
      others, the count and the order stay. A row still equal to `payment` becomes its toggle. */
  lemma ToggleInChangesOnlyThatPayment(payments: seq<Payment>, payment: Payment, now: string)
    ensures |ToggleIn(payments, payment, now)| == |payments|
    ensures forall i :: 0 <= i < |payments| && payments[i].id != payment.id ==>
      ToggleIn(payments, payment, now)[i] == payments[i]
    ensures forall i :: 0 <= i < |payments| && payments[i].id == payment.id ==>
      var r := ToggleIn(payments, payment, now)[i];
      r.status == ToggledStatus(payment.status) && r.datePaid == DatePaidFor(r.status, now)
      && r.(status := payments[i].status, datePaid := payments[i].datePaid) == payments[i]
    ensures forall i :: 0 <= i < |payments| && payments[i] == payment ==>
      ToggleIn(payments, payment, now)[i] == Toggled(payment, now)
  {
  }

  /** The add form may be sent: resident, amount and period are all filled in. */
  predicate CanAdd(residentId: string, amount: string, period: string) {
    residentId != "" && amount != "" && period != ""
  }

  /** The record the add form inserts. */
  function NewRecord(residentId: string, amount: string, period: string, status: string, now: string): (r: NewPayment)
    ensures r.residentId == residentId && r.amount == amount && r.period == period && r.status == status
    ensures r.datePaid.Some? <==> status == "paid"
  {
    NewPayment(residentId, amount, period, status, DatePaidFor(status, now))
  }

  class Component {
    var payments: seq<Payment>
    var showAddForm: bool
    var newResidentId: string
    var newAmount: string
    var newPeriod: string
    var newStatus: string
    var adding: bool
    /** The store calls made so far, in order. */
    var calls: seq<Call>

    /** A form in its reset state. */
    predicate FormReset()
      reads this
    {
      newResidentId == "" && newAmount == "" && newPeriod == "" && newStatus == "unpaid"
      && !showAddForm && !adding
    }

    constructor ()
      ensures payments == [] && calls == [] && FormReset()
    {
      payments := [];
      showAddForm := false;
      newResidentId := "";
      newAmount := "";
      newPeriod := "";
      newStatus := "unpaid";
      adding := false;
      calls := [];
    }

    /** `togglePaymentStatus(payment)` at time `now`: the store gets the new status and date, and
        every local row with that id takes the same two values, so the list shows what was stored. */
    method TogglePaymentStatus(payment: Payment, now: string)
      modifies this
      ensures var s := ToggledStatus(payment.status);
        calls == old(calls) + [UpdatePayment(payment.id, s, DatePaidFor(s, now))]
      ensures payments == ToggleIn(old(payments), payment, now)
      ensures forall i :: 0 <= i < |payments| && payments[i].id == payment.id ==>
        calls[|calls| - 1] == UpdatePayment(payments[i].id, payments[i].status, payments[i].datePaid)
      ensures newResidentId == old(newResidentId) && newAmount == old(newAmount) && newPeriod == old(newPeriod)
      ensures newStatus == old(newStatus) && showAddForm == old(showAddForm) && adding == old(adding)
    {
      var status := ToggledStatus(payment.status);
      var datePaid := DatePaidFor(status, now);
      calls := calls + [UpdatePayment(payment.id, status, datePaid)];
      payments := UpdateWhere(payments, (p: Payment) => p.id == payment.id,
        (p: Payment) => p.(status := status, datePaid := datePaid));
    }

    /** `handleAddPayment` at time `now`: with a field missing nothing happens; otherwise the
        record is inserted, the form is reset and hidden, and the list is reloaded. */
    method HandleAddPayment(now: string)
      modifies this
      ensures !CanAdd(old(newResidentId), old(newAmount), old(newPeriod)) ==>
        calls == old(calls) && newResidentId == old(newResidentId) && newAmount == old(newAmount)
        && newPeriod == old(newPeriod) && newStatus == old(newStatus) && showAddForm == old(showAddForm)
        && adding == old(adding)
      ensures CanAdd(old(newResidentId), old(newAmount), old(newPeriod)) ==>
        calls == old(calls) + [InsertPayment(NewRecord(old(newResidentId), old(newAmount), old(newPeriod), old(newStatus), now)), SelectPayments]
        && FormReset()
      ensures payments == old(payments)
    {
      if newResidentId == "" || newAmount == "" || newPeriod == "" {
        return;
      }
      adding := true;
      var datePaid := if newStatus == "paid" then Some(now) else None;
      calls := calls + [InsertPayment(NewPayment(newResidentId, newAmount, newPeriod, newStatus, datePaid))];
      newResidentId := "";
      newAmount := "";
      newPeriod := "";
      newStatus := "unpaid";
      showAddForm := false;
      adding := false;
      calls := calls + [SelectPayments];
    }

    /** `fetchPayments` answering with `data`. */
    method Load(data: Option<seq<Payment>>)
      modifies this
      ensures payments == data.GetOr([])
      ensures calls == old(calls) && newResidentId == old(newResidentId) && newAmount == old(newAmount)
      ensures newPeriod == old(newPeriod) && newStatus == old(newStatus) && showAddForm == old(showAddForm)
      ensures adding == old(adding)
    {
      payments := data.GetOr([]);
    }
  }
}
