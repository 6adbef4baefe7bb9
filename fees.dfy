/** The fee ledger of the modular back end: the `Fee` record (`app/models/fee.py`) with its derived
    amounts and status, and the guards and statistics of `app/controllers/fee_controller.py`.
    Money is in integer cents and dates are day numbers, so `(today - due_date).days` is a
    subtraction. */
module Fees {
  import opened Wrappers
  import opened Text

  datatype FeeStatus = Pending | Paid | Partial | Overdue

  /** The stored columns of a fee that the rules read or write. */
  datatype FeeRecord = FeeRecord(studentId: int, feeType: string, amount: int, dueDay: int,
                                 paidDay: Option<int>, paidAmount: int, status: FeeStatus,
                                 lateFee: int, discount: int, paymentMethod: Option<string>,
                                 transactionId: Option<string>, processedBy: Option<int>)

  /** `total_amount`: the amount plus the late fee minus the discount. */
  function TotalAmount(f: FeeRecord): (t: int)
    ensures t + f.discount == f.amount + f.lateFee
  {
    f.amount + f.lateFee - f.discount
  }

  /** `balance_due`: what is left to pay, never negative. */
  function BalanceDue(f: FeeRecord): (b: int)
    ensures b >= 0 && b >= TotalAmount(f) - f.paidAmount
    ensures b == 0 <==> f.paidAmount >= TotalAmount(f)
    ensures b > 0 ==> f.paidAmount + b == TotalAmount(f)
  {
    if TotalAmount(f) - f.paidAmount > 0 then TotalAmount(f) - f.paidAmount else 0
  }

  /** The decision of `update_status`: settled, then part-paid, then past due, else pending. */
  function StatusFor(paid: int, total: int, dueDay: int, today: int): (s: FeeStatus)
    ensures s == Paid <==> paid >= total
    ensures s == Partial <==> paid < total && paid > 0
    ensures s == Overdue <==> paid < total && paid <= 0 && today > dueDay
    ensures s == Pending <==> paid < total && paid <= 0 && today <= dueDay
  {
    if paid >= total then Paid
    else if paid > 0 then Partial
    else if today > dueDay then Overdue
    else Pending
  }

  /** `is_overdue`: past due and not settled, by the stored status. */
  predicate IsOverdue(f: FeeRecord, today: int) {
    today > f.dueDay && f.status != Paid
  }

  /** `days_overdue`. */
  function DaysOverdue(f: FeeRecord, today: int): (d: int)
    ensures d > 0 <==> IsOverdue(f, today)
    ensures !IsOverdue(f, today) ==> d == 0
    ensures IsOverdue(f, today) ==> d == today - f.dueDay
  {
    if IsOverdue(f, today) then today - f.dueDay else 0
  }

  /** The record after `update_status`. */
  function WithStatus(f: FeeRecord, today: int): (g: FeeRecord)
    ensures g == f.(status := StatusFor(f.paidAmount, TotalAmount(f), f.dueDay, today))
  {
    f.(status := StatusFor(f.paidAmount, TotalAmount(f), f.dueDay, today))
  }

  /** The record after `make_payment`: the amount is added, the payment details replaced, the
      first paid date kept, and the status recomputed. */
  function Pay(f: FeeRecord, amount: int, payMethod: Option<string>, txn: Option<string>, processor: Option<int>,
               today: int): (g: FeeRecord)
    ensures g.paidAmount == f.paidAmount + amount
    ensures g.paymentMethod == payMethod && g.transactionId == txn && g.processedBy == processor
    ensures g.paidDay == if f.paidDay.None? && g.paidAmount > 0 then Some(today) else f.paidDay
    ensures g.status == StatusFor(g.paidAmount, TotalAmount(f), f.dueDay, today)
    ensures g.studentId == f.studentId && g.feeType == f.feeType && g.amount == f.amount &&
            g.dueDay == f.dueDay && g.lateFee == f.lateFee && g.discount == f.discount
  {
    var paid := f.paidAmount + amount;
    var g := f.(paidAmount := paid, paymentMethod := payMethod, transactionId := txn, processedBy := processor,
                paidDay := if f.paidDay.None? && paid > 0 then Some(today) else f.paidDay);
    WithStatus(g, today)
  }

  /** A settled fee is never overdue and has no days overdue. */
  lemma PaidIsNeverOverdue(f: FeeRecord, today: int)
    requires f.status == Paid
    ensures !IsOverdue(f, today) && DaysOverdue(f, today) == 0
  {
  }

  /** The status a fee's own columns give it is paid exactly when nothing is left to pay. */
  lemma StatusMatchesBalance(f: FeeRecord, today: int)
    ensures WithStatus(f, today).status == Paid <==> BalanceDue(f) == 0
  {
  }

  /** A payment of exactly the balance settles the fee. */
  lemma PayingBalanceSettles(f: FeeRecord, payMethod: Option<string>, txn: Option<string>, processor: Option<int>, today: int)
    requires BalanceDue(f) > 0
    ensures var g := Pay(f, BalanceDue(f), payMethod, txn, processor, today);
            g.status == Paid && BalanceDue(g) == 0
  {
  }

  /** The new-fee state as `Fee.__init__` leaves it: the columns whose defaults are applied only
      on insert are still `None` when `update_status` runs. */
  datatype FreshColumns = FreshColumns(paidAmount: Option<int>, lateFee: Option<int>, discount: Option<int>)

  /** `update_status` on possibly-unset columns: any arithmetic or comparison with `None` raises
      `TypeError`. */
  function UpdateStatusAsWritten(c: FreshColumns, amount: int, dueDay: int, today: int): (r: Result<FeeStatus, string>)
    ensures r.Ok? <==> c.paidAmount.Some? && c.lateFee.Some? && c.discount.Some?
  {
    if c.paidAmount.None? || c.lateFee.None? || c.discount.None? then Err("TypeError")
    else Ok(StatusFor(c.paidAmount.value, amount + c.lateFee.value - c.discount.value, dueDay, today))
  }

  /** As written, constructing a fee always raises: each of `paid_amount`, `late_fee` and `discount`
      is still unset when the constructor computes the status. */
  lemma FeeConstructionRaises(amount: int, dueDay: int, today: int)
    ensures UpdateStatusAsWritten(FreshColumns(None, None, None), amount, dueDay, today).Err?
  {
  }

  /** The new-fee record with the column defaults (0) applied before the status is computed. */
  function NewFee(studentId: int, feeType: string, amount: int, dueDay: int, today: int): (f: FeeRecord)
    ensures f.paidAmount == 0 && f.lateFee == 0 && f.discount == 0 && f.paidDay.None?
    ensures TotalAmount(f) == amount && BalanceDue(f) == if amount > 0 then amount else 0
    ensures amount > 0 ==> f.status == (if today > dueDay then Overdue else Pending)
    ensures amount <= 0 ==> f.status == Paid
  {
    WithStatus(FeeRecord(studentId, feeType, amount, dueDay, None, 0, Pending, 0, 0, None, None, None), today)
  }

  /** A fee row that the payment endpoints update in place. */
  class Fee {
    var studentId: int
    var feeType: string
    var amount: int
    var dueDay: int
    var paidDay: Option<int>
    var paidAmount: int
    var status: FeeStatus
    var lateFee: int
    var discount: int
    var paymentMethod: Option<string>
    var transactionId: Option<string>
    var processedBy: Option<int>

    function Snap(): FeeRecord
      reads this
    {
      FeeRecord(studentId, feeType, amount, dueDay, paidDay, paidAmount, status, lateFee, discount,
                paymentMethod, transactionId, processedBy)
    }

    /** `Fee(...)` with the column defaults in place. */
    constructor (student: int, kind: string, amountCents: int, due: int, today: int)
      ensures Snap() == NewFee(student, kind, amountCents, due, today)
    {
      studentId := student;
      feeType := kind;
      amount := amountCents;
      dueDay := due;
      paidDay := None;
      paidAmount := 0;
      lateFee := 0;
      discount := 0;
      paymentMethod := None;
      transactionId := None;
      processedBy := None;
      status := StatusFor(0, amountCents, due, today);
    }

    /** `update_status`. */
    method UpdateStatus(today: int)
      modifies this
      ensures Snap() == WithStatus(old(Snap()), today)
    {
      if paidAmount >= amount + lateFee - discount {
        status := Paid;
      } else if paidAmount > 0 {
        status := Partial;
      } else if today > dueDay {
        status := Overdue;
      } else {
        status := Pending;
      }
    }

    /** `make_payment`. */
    method MakePayment(amountCents: int, payMethod: Option<string>, txn: Option<string>, processor: Option<int>, today: int)
      modifies this
      ensures Snap() == Pay(old(Snap()), amountCents, payMethod, txn, processor, today)
    {
      paidAmount := paidAmount + amountCents;
      paymentMethod := payMethod;
      transactionId := txn;
      processedBy := processor;
      if paidDay.None? && paidAmount > 0 {
        paidDay := Some(today);
      }
      UpdateStatus(today);
    }
  }

  const FeeTypes: seq<string> := ["tuition", "library", "laboratory", "sports", "transportation", "exam",
                                  "miscellaneous"]

  /** The checks of `create_fee` in order: the required fields, an active student, a known type. */
  function CreateFeeCheck(missing: seq<string>, studentActive: bool, feeType: string): (e: Option<ApiError>)
    ensures e.None? <==> missing == [] && studentActive && feeType in FeeTypes
    ensures missing != [] ==> e == Some(ApiError(400, "Missing required fields: " + Join(missing, ", ")))
    ensures missing == [] && !studentActive ==> e == Some(ApiError(404, "Student not found or inactive"))
    ensures missing == [] && studentActive && feeType !in FeeTypes ==>
              e == Some(ApiError(400, "Invalid fee type. Must be one of: " + Join(FeeTypes, ", ")))
  {
    if missing != [] then Some(ApiError(400, "Missing required fields: " + Join(missing, ", ")))
    else if !studentActive then Some(ApiError(404, "Student not found or inactive"))
    else if feeType !in FeeTypes then Some(ApiError(400, "Invalid fee type. Must be one of: " + Join(FeeTypes, ", ")))
    else None
  }

  /** The guard of the payment endpoint: an amount must be given, positive, and at most the balance. */
  function PaymentCheck(f: FeeRecord, amount: Option<int>): (e: Option<ApiError>)
    ensures e.None? <==> amount.Some? && 0 < amount.value <= BalanceDue(f)
    ensures amount.None? ==> e == Some(ApiError(400, "Missing required fields: amount"))
    ensures amount.Some? && amount.value <= 0 ==> e == Some(ApiError(400, "Payment amount must be greater than 0"))
    ensures e.Some? ==> e.value.code == 400
  {
    if amount.None? then Some(ApiError(400, "Missing required fields: amount"))
    else if amount.value <= 0 then Some(ApiError(400, "Payment amount must be greater than 0"))
    else if amount.value > BalanceDue(f) then Some(ApiError(400, "Payment amount cannot exceed balance due"))
    else None
  }

  /** An accepted payment never takes the paid amount past the total, and the fee ends up paid or
      part-paid. */
  lemma AcceptedPaymentKeepsBound(f: FeeRecord, amount: int, payMethod: Option<string>, txn: Option<string>,
                                  processor: Option<int>, today: int)
    requires f.paidAmount >= 0 && f.paidAmount <= TotalAmount(f)
    requires PaymentCheck(f, Some(amount)).None?
    ensures var g := Pay(f, amount, payMethod, txn, processor, today);
            f.paidAmount < g.paidAmount <= TotalAmount(g) && (g.status == Paid || g.status == Partial) &&
            BalanceDue(g) == BalanceDue(f) - amount
  {
  }

  /** The `make_payment` endpoint: a rejected payment leaves the fee as it was; an accepted one goes
      through `Fee.make_payment` and reports the remaining balance. */
  method ProcessPayment(fee: Fee, amount: Option<int>, payMethod: Option<string>, txn: Option<string>, processor: Option<int>,
                        today: int) returns (r: Result<int, ApiError>)
    modifies fee
    ensures PaymentCheck(old(fee.Snap()), amount).Some? ==>
              r == Err(PaymentCheck(old(fee.Snap()), amount).value) && fee.Snap() == old(fee.Snap())
    ensures PaymentCheck(old(fee.Snap()), amount).None? ==>
              fee.Snap() == Pay(old(fee.Snap()), amount.value, payMethod, txn, processor, today) &&
              r == Ok(BalanceDue(fee.Snap()))
  {
    var e := PaymentCheck(fee.Snap(), amount);
    if e.Some? {
      return Err(e.value);
    }
    fee.MakePayment(amount.value, payMethod, txn, processor, today);
    r := Ok(BalanceDue(fee.Snap()));
  }

  /** The `make_payment` endpoint as written. Once a fee has been partly paid, its stored
      `paid_amount` is a non-zero `Decimal`. `make_payment` then adds the request's `float` to it,
      which raises `TypeError`, and the handler answers 500. A zero `Decimal` is falsy, so an unpaid
      fee takes the `or 0` branch and the sum succeeds. */
  function ProcessPaymentAsWritten(f: FeeRecord, amount: Option<int>): (r: Result<int, ApiError>)
    requires f.paidAmount >= 0
    ensures PaymentCheck(f, amount).Some? ==> r == Err(PaymentCheck(f, amount).value)
    ensures PaymentCheck(f, amount).None? && f.paidAmount != 0 ==>
              r == Err(ApiError(500, "Failed to process payment: " + DecimalFloatError))
    ensures PaymentCheck(f, amount).None? && f.paidAmount == 0 ==> r == Ok(BalanceDue(f) - amount.value)
  {
    if PaymentCheck(f, amount).Some? then Err(PaymentCheck(f, amount).value)
    else if f.paidAmount != 0 then Err(ApiError(500, "Failed to process payment: " + DecimalFloatError))
    else Ok(BalanceDue(Pay(f, amount.value, None, None, None, 0)))
  }

  const DecimalFloatError: string := "unsupported operand type(s) for +: 'decimal.Decimal' and 'float'"

  /** As written, a part-paid fee can never be settled: the payment of its exact balance passes
      every check and still fails, where the intended endpoint settles it. */
  lemma PartPaidFeeCannotBeSettled(f: FeeRecord, today: int)
    requires 0 < f.paidAmount < TotalAmount(f)
    ensures PaymentCheck(f, Some(BalanceDue(f))).None?
    ensures ProcessPaymentAsWritten(f, Some(BalanceDue(f))).Err?
    ensures ProcessPaymentAsWritten(f, Some(BalanceDue(f))).error.code == 500
    ensures Pay(f, BalanceDue(f), None, None, None, today).status == Paid
  {
    PayingBalanceSettles(f, None, None, None, today);
  }

  /** The guard of `delete_fee`: a fee with any payment stays. */
  function DeleteFeeCheck(f: FeeRecord): (e: Option<ApiError>)
    ensures e.None? <==> f.paidAmount <= 0
    ensures e.Some? ==> e.value.code == 400
  {
    if f.paidAmount > 0 then Some(ApiError(400, "Cannot delete fee with payments. Please refund payments first."))
    else None
  }

  function SumAmount(fees: seq<FeeRecord>): int {
    if fees == [] then 0 else fees[0].amount + SumAmount(fees[1..])
  }

  function SumPaid(fees: seq<FeeRecord>): int {
    if fees == [] then 0 else fees[0].paidAmount + SumPaid(fees[1..])
  }

  /** The overdue fees, in order. */
  function OverdueFees(fees: seq<FeeRecord>, today: int): (r: seq<FeeRecord>)
    ensures |r| <= |fees|
    ensures forall f :: f in r <==> f in fees && IsOverdue(f, today)
  {
    if fees == [] then []
    else (if IsOverdue(fees[0], today) then [fees[0]] else []) + OverdueFees(fees[1..], today)
  }

  function SumBalance(fees: seq<FeeRecord>): (s: int)
    ensures s >= 0
  {
    if fees == [] then 0 else BalanceDue(fees[0]) + SumBalance(fees[1..])
  }

  datatype FeeStats = FeeStats(totalFees: nat, totalAmount: int, paidAmount: int, balanceDue: int,
                               overdueCount: nat, overdueAmount: int)

  /** The statistics of `get_student_fees`. */
  function StudentFeeStats(fees: seq<FeeRecord>, today: int): (s: FeeStats)
    ensures s.totalFees == |fees| && s.overdueCount <= s.totalFees
    ensures s.balanceDue == s.totalAmount - s.paidAmount
    ensures s.totalAmount == SumAmount(fees) && s.paidAmount == SumPaid(fees)
    ensures s.overdueCount == |OverdueFees(fees, today)| && s.overdueAmount == SumBalance(OverdueFees(fees, today))
    ensures s.overdueAmount >= 0
  {
    var overdue := OverdueFees(fees, today);
    FeeStats(|fees|, SumAmount(fees), SumPaid(fees), SumAmount(fees) - SumPaid(fees), |overdue|, SumBalance(overdue))
  }

  /** The statistic adds up the bare amounts: the late fees and discounts that each fee's own
      balance counts are left out of the student's balance. */
  lemma StatsBalanceIgnoresLateFees()
    ensures var f := FeeRecord(1, "library", 20000, 0, None, 0, Pending, 1500, 0, None, None, None);
            StudentFeeStats([f], 0).balanceDue == 20000 && BalanceDue(f) == 21500
  {
  }

  /** The fees a caller of `get_fees` sees, as written: a parent is limited to the children's fees
      only when a parent profile exists. */
  function VisibleFeesAsWritten(role: string, children: Option<set<int>>, fees: seq<FeeRecord>): (r: seq<FeeRecord>)
    ensures forall f :: f in r ==> f in fees
    ensures role != "parent" || children.None? ==> r == fees
    ensures VisibleFees(role, children, fees).Ok? ==> r == VisibleFees(role, children, fees).value
  {
    if role == "parent" && children.Some? then ForStudents(fees, children.value) else fees
  }

  function ForStudents(fees: seq<FeeRecord>, ids: set<int>): (r: seq<FeeRecord>)
    ensures |r| <= |fees|
    ensures forall f :: f in r <==> f in fees && f.studentId in ids
  {
    if fees == [] then []
    else (if fees[0].studentId in ids then [fees[0]] else []) + ForStudents(fees[1..], ids)
  }

  /** As written, a parent account without a parent profile is shown every fee in the school. */
  lemma ParentWithoutProfileSeesAll(fees: seq<FeeRecord>)
    ensures VisibleFeesAsWritten("parent", None, fees) == fees
  {
  }

  /** The visibility rule with the missing profile refused, as `get_student_fees` refuses it. */
  function VisibleFees(role: string, children: Option<set<int>>, fees: seq<FeeRecord>): (r: Result<seq<FeeRecord>, ApiError>)
    ensures role == "parent" && children.None? ==> r == Err(ApiError(404, "Parent profile not found"))
    ensures role == "parent" && children.Some? ==>
              r.Ok? && forall f :: f in r.value <==> f in fees && f.studentId in children.value
    ensures role != "parent" ==> r == Ok(fees)
  {
    if role == "parent" then
      (if children.None? then Err(ApiError(404, "Parent profile not found")) else Ok(ForStudents(fees, children.value)))
    else Ok(fees)
  }
}
