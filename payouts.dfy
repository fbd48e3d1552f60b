/** The payout history page, src/app/profile/payout-history/page.tsx. Amounts
    are integer cents (ngwee) rather than floating-point kwacha. */
module PayoutHistory {

  datatype PayoutStatus = Paid | Pending

  datatype Payout = Payout(id: string, date: string, amount: int, status: PayoutStatus, payMethod: string)

  /** The "Total All-Time" figure is a fixed placeholder (ZMW 5820.00). */
  const TotalAllTimePlaceholder: int := 582000

  /** `.filter(p => p.status === 'Paid')`. */
  function PaidOnly(ps: seq<Payout>): (r: seq<Payout>)
    ensures forall p :: p in r <==> p in ps && p.status == Paid
  {
    if |ps| == 0 then []
    else (if ps[0].status == Paid then [ps[0]] else []) + PaidOnly(ps[1..])
  }

  /** `.reduce((sum, p) => sum + p.amount, acc)`: a left fold. */
  function SumFrom(acc: int, ps: seq<Payout>): int
    decreases ps
  {
    if |ps| == 0 then acc else SumFrom(acc + ps[0].amount, ps[1..])
  }

  /** `totalEarnings`. */
  function TotalEarnings(ps: seq<Payout>): int {
    SumFrom(0, PaidOnly(ps))
  }

  /** Reference definition: the Paid amounts summed from the right. */
  function PaidTotal(ps: seq<Payout>): int {
    if |ps| == 0 then 0 else (if ps[0].status == Paid then ps[0].amount else 0) + PaidTotal(ps[1..])
  }

  lemma {:induction false} SumFromShift(acc: int, ps: seq<Payout>)
    ensures SumFrom(acc, ps) == acc + SumFrom(0, ps)
    decreases ps
  {
    if |ps| > 0 {
      SumFromShift(acc + ps[0].amount, ps[1..]);
      SumFromShift(ps[0].amount, ps[1..]);
    }
  }

  /** The total paid out is the sum of the Paid amounts. */
  lemma {:induction false} TotalEarningsIsPaidTotal(ps: seq<Payout>)
    ensures TotalEarnings(ps) == PaidTotal(ps)
  {
    if |ps| > 0 {
      TotalEarningsIsPaidTotal(ps[1..]);
      if ps[0].status == Paid {
        assert PaidOnly(ps) == [ps[0]] + PaidOnly(ps[1..]);
        assert PaidOnly(ps)[1..] == PaidOnly(ps[1..]);
        SumFromShift(ps[0].amount, PaidOnly(ps[1..]));
      } else {
        assert PaidOnly(ps) == PaidOnly(ps[1..]);
      }
    }
  }

  lemma {:induction false} PaidTotalAppend(ps: seq<Payout>, p: Payout)
    ensures PaidTotal(ps + [p]) == PaidTotal(ps) + (if p.status == Paid then p.amount else 0)
  {
    if |ps| > 0 {
      assert (ps + [p])[1..] == ps[1..] + [p];
      PaidTotalAppend(ps[1..], p);
    } else {
      assert ps + [p] == [p];
    }
  }

  /** A Pending payout adds nothing; a Paid payout adds exactly its amount. */
  lemma AppendPayout(ps: seq<Payout>, p: Payout)
    ensures p.status == Pending ==> TotalEarnings(ps + [p]) == TotalEarnings(ps)
    ensures p.status == Paid ==> TotalEarnings(ps + [p]) == TotalEarnings(ps) + p.amount
  {
    TotalEarningsIsPaidTotal(ps);
    TotalEarningsIsPaidTotal(ps + [p]);
    PaidTotalAppend(ps, p);
  }

  /** With no Paid payout the total is zero. */
  lemma {:induction false} NoPaidNoEarnings(ps: seq<Payout>)
    requires forall i :: 0 <= i < |ps| ==> ps[i].status == Pending
    ensures TotalEarnings(ps) == 0
  {
    TotalEarningsIsPaidTotal(ps);
    ZeroPaidTotal(ps);
  }

  lemma {:induction false} ZeroPaidTotal(ps: seq<Payout>)
    requires forall i :: 0 <= i < |ps| ==> ps[i].status == Pending
    ensures PaidTotal(ps) == 0
  {
    if |ps| > 0 {
      assert forall i :: 0 <= i < |ps| - 1 ==> ps[1..][i] == ps[i + 1];
      ZeroPaidTotal(ps[1..]);
    }
  }

  datatype Overview = Overview(totalPaidOut: int, totalAllTime: int)

  /** The two figures of the overview card: the second ignores the data. */
  function RenderOverview(ps: seq<Payout>): (o: Overview)
    ensures o.totalPaidOut == PaidTotal(ps)
    ensures o.totalAllTime == TotalAllTimePlaceholder
  {
    TotalEarningsIsPaidTotal(ps);
    Overview(TotalEarnings(ps), TotalAllTimePlaceholder)
  }

  datatype RowIcon = CheckCircleIcon | ClockIcon
  datatype BadgeVariant = Secondary | Outline

  datatype RowStyle = RowStyle(icon: RowIcon, circleClass: string, variant: BadgeVariant, badgeClass: string)

  /** Paid rows get the check icon and green styling; every other status the
      clock icon and amber styling. */
  function RowStyleOf(s: PayoutStatus): (r: RowStyle)
    ensures r.icon == CheckCircleIcon <==> s == Paid
    ensures r.variant == Secondary <==> s == Paid
  {
    if s == Paid then RowStyle(CheckCircleIcon, "bg-green-100", Secondary, "bg-green-100 text-green-800 border-green-200")
    else RowStyle(ClockIcon, "bg-amber-100", Outline, "bg-amber-100 text-amber-800 border-amber-200")
  }

  /** The page's own data, in cents. */
  const PayoutHistoryData: seq<Payout> := [
    Payout("PAY-006", "October 27, 2023", 25075, Pending, "Mobile Money"),
    Payout("PAY-001", "October 20, 2023", 48050, Paid, "Mobile Money"),
    Payout("PAY-002", "October 13, 2023", 51200, Paid, "Mobile Money"),
    Payout("PAY-003", "October 06, 2023", 45075, Paid, "Bank Transfer"),
    Payout("PAY-004", "September 29, 2023", 49525, Paid, "Mobile Money"),
    Payout("PAY-005", "September 22, 2023", 53000, Paid, "Mobile Money")
  ]

  /** On that data the page shows ZMW 2468.50 paid out: the pending 250.75 is left out. */
  lemma PageTotal()
    ensures TotalEarnings(PayoutHistoryData) == 246850
  {
    TotalEarningsIsPaidTotal(PayoutHistoryData);
  }
}
