/**
 * The entities of the dental clinic (management/models.py) as values, and the
 * computations the models define on them. Money is held in integer cents: every
 * money column is a decimal with two places.
 */
module Models {
  import opened Common
  import opened Tables
  import opened Strings

  type Cents = int

  /** A calendar date; `today` and timestamps are passed in as values of this type. */
  datatype Date = Date(year: int, month: int, day: int)

  /** A time of day, down to the microsecond as Python's `time` has it. */
  datatype Time = Time(hour: int, minute: int, second: int, microsecond: int)

  /** A nullable text column counts as filled only when it holds a non-empty string. */
  predicate HasText(s: Option<string>) {
    s.Some? && s.value != ""
  }

  // ---------------------------------------------------------------- Patient

  datatype Patient = Patient(
    firstName: string,
    paternalSurname: string,
    maternalSurname: Option<string>,
    idNumber: Option<string>,   // unique when present
    dateOfBirth: Date)

  /** `Patient.__str__`: first name and paternal surname, then the maternal
    * surname only when it is filled, each separated by one space. */
  function DisplayName(p: Patient): (r: string)
    ensures |r| == |p.firstName| + 1 + |p.paternalSurname|
                   + (if HasText(p.maternalSurname) then 1 + |p.maternalSurname.value| else 0)
    ensures r[..|p.firstName|] == p.firstName && r[|p.firstName|] == ' '
    ensures r[|p.firstName| + 1..|p.firstName| + 1 + |p.paternalSurname|] == p.paternalSurname
    ensures HasText(p.maternalSurname) ==>
              r[|p.firstName| + 1 + |p.paternalSurname|] == ' ' &&
              r[|p.firstName| + 2 + |p.paternalSurname|..] == p.maternalSurname.value
  {
    var maternal := if HasText(p.maternalSurname) then " " + p.maternalSurname.value else "";
    p.firstName + " " + p.paternalSurname + maternal
  }

  // ------------------------------------------------------ Clinical history

  /** The free-text columns of a clinical history that a form may fill. */
  datatype HistoryField =
    | PreexistingConditions | CurrentMedications | EmergencyContactName
    | EmergencyContactPhone | BloodType | OralHealthObservations

  /** A clinical history belongs to exactly one patient; a field absent from
    * `fields` is NULL. */
  datatype History = History(patient: nat, fields: map<HistoryField, string>)

  // ------------------------------------------------------------------ Tooth

  const FirstToothNumber: int := 1
  const LastToothNumber: int := 32
  const TeethPerChart: nat := 32

  datatype ToothStatus = Healthy | Decayed | Filled | Extracted | PendingTreatment {
    /** The one-letter code stored in the `status` column. */
    function Code(): char {
      match this
      case Healthy => 'S'
      case Decayed => 'C'
      case Filled => 'O'
      case Extracted => 'E'
      case PendingTreatment => 'P'
    }
  }

  /** The status stored when none is given. */
  const DefaultToothStatus: ToothStatus := Healthy

  datatype Tooth = Tooth(history: nat, number: int, status: ToothStatus)

  predicate ValidToothNumber(n: int) {
    FirstToothNumber <= n <= LastToothNumber
  }

  /** Teeth numbers lie in 1..32 and (history, number) is unique. */
  predicate TeethWellFormed(rows: seq<Row<Tooth>>) {
    && (forall i :: 0 <= i < |rows| ==> ValidToothNumber(rows[i].data.number))
    && (forall i, j :: 0 <= i < j < |rows| && rows[i].data.history == rows[j].data.history ==>
          rows[i].data.number != rows[j].data.number)
  }

  /** `ClinicalHistory.patient` is a foreign key: every history's patient is stored. */
  predicate HistoriesOwned(hs: seq<Row<History>>, ps: seq<Row<Patient>>) {
    forall i :: 0 <= i < |hs| ==> HasId(ps, hs[i].data.patient)
  }

  /** `Tooth.history` is a foreign key: every tooth's history is stored. */
  predicate TeethOwned(ts: seq<Row<Tooth>>, hs: seq<Row<History>>) {
    forall i :: 0 <= i < |ts| ==> HasId(hs, ts[i].data.history)
  }

  /** `history.teeth`: the teeth of one history, in table order. */
  function TeethOf(rows: seq<Row<Tooth>>, h: nat): (r: seq<Row<Tooth>>)
    ensures forall x :: x in r <==> x in rows && x.data.history == h
    ensures |r| <= |rows|
  {
    if rows == [] then []
    else if rows[0].data.history == h then [rows[0]] + TeethOf(rows[1..], h)
    else TeethOf(rows[1..], h)
  }

  function CountTeeth(rows: seq<Row<Tooth>>, h: nat): nat {
    |TeethOf(rows, h)|
  }

  /** The batch the provisioning handlers insert: teeth 1..32 of history h,
    * all healthy, with consecutive primary keys from `firstId`. */
  function FreshTeeth(h: nat, firstId: nat): (r: seq<Row<Tooth>>)
    ensures |r| == TeethPerChart
    ensures forall k :: 0 <= k < |r| ==>
              r[k] == Row(firstId + k, Tooth(h, k + 1, DefaultToothStatus))
  {
    seq(TeethPerChart, k requires 0 <= k < TeethPerChart => Row(firstId + k, Tooth(h, k + 1, DefaultToothStatus)))
  }

  /** The batch stored for a history created just before it: its teeth take
    * the keys that follow the history's own. */
  function NewChart(h: nat): seq<Row<Tooth>> {
    FreshTeeth(h, h + 1)
  }

  /** A full chart: exactly 32 teeth, numbered 1..32 in order, all healthy. */
  predicate FullHealthyChart(chart: seq<Row<Tooth>>) {
    |chart| == TeethPerChart &&
    forall k :: 0 <= k < |chart| ==> chart[k].data.number == k + 1 && chart[k].data.status == Healthy
  }

  lemma {:induction false} TeethOfAppend(a: seq<Row<Tooth>>, b: seq<Row<Tooth>>, h: nat)
    ensures TeethOf(a + b, h) == TeethOf(a, h) + TeethOf(b, h)
  {
    if a != [] {
      assert (a + b)[1..] == a[1..] + b;
      TeethOfAppend(a[1..], b, h);
    } else {
      assert a + b == b;
    }
  }

  lemma {:induction false} TeethOfOnlyOwn(rows: seq<Row<Tooth>>, h: nat)
    requires forall i :: 0 <= i < |rows| ==> rows[i].data.history == h
    ensures TeethOf(rows, h) == rows
  {
    if rows != [] {
      TeethOfOnlyOwn(rows[1..], h);
    }
  }

  lemma {:induction false} TeethOfNoneOwn(rows: seq<Row<Tooth>>, h: nat)
    requires forall i :: 0 <= i < |rows| ==> rows[i].data.history != h
    ensures TeethOf(rows, h) == []
  {
    if rows != [] {
      TeethOfNoneOwn(rows[1..], h);
    }
  }

  /** Appending the fresh batch of history h to a table where h has no teeth
    * leaves h with a full healthy chart and every other history's teeth as they were. */
  lemma FreshBatchChart(rows: seq<Row<Tooth>>, h: nat, firstId: nat)
    requires CountTeeth(rows, h) == 0
    ensures TeethOf(rows + FreshTeeth(h, firstId), h) == FreshTeeth(h, firstId)
    ensures FullHealthyChart(TeethOf(rows + FreshTeeth(h, firstId), h))
    ensures forall h' :: h' != h ==> TeethOf(rows + FreshTeeth(h, firstId), h') == TeethOf(rows, h')
  {
    var batch := FreshTeeth(h, firstId);
    TeethOfAppend(rows, batch, h);
    TeethOfOnlyOwn(batch, h);
    forall h' | h' != h ensures TeethOf(rows + batch, h') == TeethOf(rows, h') {
      TeethOfAppend(rows, batch, h');
      TeethOfNoneOwn(batch, h');
    }
  }

  /** Adding the fresh batch for a history without teeth keeps the teeth table well formed. */
  lemma FreshBatchWellFormed(rows: seq<Row<Tooth>>, h: nat, firstId: nat)
    requires TeethWellFormed(rows) && CountTeeth(rows, h) == 0
    ensures TeethWellFormed(rows + FreshTeeth(h, firstId))
  {
    var batch := FreshTeeth(h, firstId);
    var all := rows + batch;
    forall i | 0 <= i < |rows| ensures rows[i].data.history != h {
      assert rows[i] !in TeethOf(rows, h);
    }
    forall i, j | 0 <= i < j < |all|
      ensures all[i].data.history == all[j].data.history ==> all[i].data.number != all[j].data.number
    {
      if i < |rows| && j >= |rows| {
        assert all[i].data.history != h;
      }
    }
  }

  // ----------------------------------------------------- Consultation, billing

  datatype Consultation = Consultation(patient: nat, user: Option<nat>, reason: string, totalCost: Cents)

  /** `Consultation.patient` is a foreign key: every consultation's patient is stored. */
  predicate ConsultationsOwned(cs: seq<Row<Consultation>>, ps: seq<Row<Patient>>) {
    forall i :: 0 <= i < |cs| ==> HasId(ps, cs[i].data.patient)
  }

  /** `Payment.consultation` is a foreign key: every payment's consultation is stored. */
  predicate PaymentsLinked(ps: seq<Row<Payment>>, cs: seq<Row<Consultation>>) {
    forall i :: 0 <= i < |ps| ==> HasId(cs, ps[i].data.consultation)
  }

  /** A tooth procedure's consultation, tooth and catalog procedure are stored. */
  predicate ChargesLinked(tps: seq<Row<ToothProcedure>>, cs: seq<Row<Consultation>>,
                          ts: seq<Row<Tooth>>, procs: seq<Row<Procedure>>) {
    forall i :: 0 <= i < |tps| ==>
      HasId(cs, tps[i].data.consultation) && HasId(ts, tps[i].data.tooth) && HasId(procs, tps[i].data.procedure)
  }

  datatype Procedure = Procedure(name: string, basePrice: Cents)

  datatype ToothProcedure = ToothProcedure(consultation: nat, tooth: nat, procedure: nat, priceCharged: Cents)

  datatype PaymentMethod = Cash | Card | Transfer

  datatype Payment = Payment(consultation: nat, amount: Cents, kind: PaymentMethod, date: Date)

  /** `Consultation.calculate_total_cost`: the sum of `price_charged` over the
    * consultation's tooth procedures, 0 when it has none. */
  function TotalCharged(tps: seq<Row<ToothProcedure>>, c: nat): (r: Cents)
    ensures (forall i :: 0 <= i < |tps| ==> tps[i].data.consultation != c) ==> r == 0
    ensures (forall i :: 0 <= i < |tps| ==> tps[i].data.priceCharged >= 0) ==> r >= 0
  {
    if tps == [] then 0
    else
      var rest := TotalCharged(tps[1..], c);
      (if tps[0].data.consultation == c then tps[0].data.priceCharged else 0) + rest
  }

  /** The sum of the amounts of the consultation's payments, 0 when it has none. */
  function TotalPaid(ps: seq<Row<Payment>>, c: nat): (r: Cents)
    ensures (forall i :: 0 <= i < |ps| ==> ps[i].data.consultation != c) ==> r == 0
    ensures (forall i :: 0 <= i < |ps| ==> ps[i].data.amount >= 0) ==> r >= 0
  {
    if ps == [] then 0
    else
      var rest := TotalPaid(ps[1..], c);
      (if ps[0].data.consultation == c then ps[0].data.amount else 0) + rest
  }

  predicate HasPayments(ps: seq<Row<Payment>>, c: nat) {
    exists i :: 0 <= i < |ps| && ps[i].data.consultation == c
  }

  /** `Consultation.get_balance`: the STORED total cost minus what has been paid. */
  function Balance(cons: Consultation, ps: seq<Row<Payment>>, c: nat): (r: Cents)
    ensures !HasPayments(ps, c) ==> r == cons.totalCost
    ensures r + TotalPaid(ps, c) == cons.totalCost
  {
    cons.totalCost - TotalPaid(ps, c)
  }

  lemma {:induction false} TotalChargedAppend(a: seq<Row<ToothProcedure>>, b: seq<Row<ToothProcedure>>, c: nat)
    ensures TotalCharged(a + b, c) == TotalCharged(a, c) + TotalCharged(b, c)
  {
    if a != [] {
      assert (a + b)[1..] == a[1..] + b;
      TotalChargedAppend(a[1..], b, c);
    } else {
      assert a + b == b;
    }
  }

  /** Saving one more tooth procedure adds its charge to its own consultation's
    * sum and leaves every other consultation's sum unchanged. */
  lemma TotalChargedAdd(tps: seq<Row<ToothProcedure>>, row: Row<ToothProcedure>, c: nat)
    ensures TotalCharged(tps + [row], c)
            == TotalCharged(tps, c) + (if row.data.consultation == c then row.data.priceCharged else 0)
  {
    TotalChargedAppend(tps, [row], c);
  }

  /** Deleting the tooth procedure with key `id` removes exactly its charge from
    * its consultation's sum; other consultations' sums are unchanged. */
  lemma {:induction false} TotalChargedWithout(tps: seq<Row<ToothProcedure>>, i: nat, c: nat)
    requires IdsUnique(tps) && i < |tps|
    ensures TotalCharged(Without(tps, tps[i].id), c)
            == TotalCharged(tps, c) - (if tps[i].data.consultation == c then tps[i].data.priceCharged else 0)
  {
    var id := tps[i].id;
    if i == 0 {
      assert !HasId(tps[1..], id) by {
        forall j | 0 <= j < |tps[1..]| ensures tps[1..][j].id != id {
          assert tps[1..][j] == tps[j + 1];
        }
      }
    } else {
      assert IdsUnique(tps[1..]);
      assert tps[1..][i - 1] == tps[i];
      TotalChargedWithout(tps[1..], i - 1, c);
    }
  }

  lemma {:induction false} TotalPaidAppend(a: seq<Row<Payment>>, b: seq<Row<Payment>>, c: nat)
    ensures TotalPaid(a + b, c) == TotalPaid(a, c) + TotalPaid(b, c)
  {
    if a != [] {
      assert (a + b)[1..] == a[1..] + b;
      TotalPaidAppend(a[1..], b, c);
    } else {
      assert a + b == b;
    }
  }

  /** Deleting the payment at position i removes exactly its amount from its consultation's sum. */
  lemma {:induction false} TotalPaidWithout(ps: seq<Row<Payment>>, i: nat, c: nat)
    requires IdsUnique(ps) && i < |ps|
    ensures TotalPaid(Without(ps, ps[i].id), c)
            == TotalPaid(ps, c) - (if ps[i].data.consultation == c then ps[i].data.amount else 0)
  {
    var id := ps[i].id;
    if i == 0 {
      assert !HasId(ps[1..], id) by {
        forall j | 0 <= j < |ps[1..]| ensures ps[1..][j].id != id {
          assert ps[1..][j] == ps[j + 1];
        }
      }
    } else {
      assert IdsUnique(ps[1..]);
      assert ps[1..][i - 1] == ps[i];
      TotalPaidWithout(ps[1..], i - 1, c);
    }
  }

  /** Recording a payment lowers its consultation's balance by the amount paid
    * and leaves every other consultation's balance unchanged. */
  lemma BalanceAfterPayment(cons: Consultation, ps: seq<Row<Payment>>, row: Row<Payment>, c: nat)
    ensures Balance(cons, ps + [row], c)
            == Balance(cons, ps, c) - (if row.data.consultation == c then row.data.amount else 0)
  {
    TotalPaidAppend(ps, [row], c);
  }

  /** Deleting a payment raises its consultation's balance by the amount it carried. */
  lemma {:induction false} BalanceWithoutPayment(cons: Consultation, ps: seq<Row<Payment>>, i: nat, c: nat)
    requires IdsUnique(ps) && i < |ps|
    ensures Balance(cons, Without(ps, ps[i].id), c)
            == Balance(cons, ps, c) + (if ps[i].data.consultation == c then ps[i].data.amount else 0)
  {
    var id := ps[i].id;
    if i == 0 {
      assert !HasId(ps[1..], id) by {
        forall j | 0 <= j < |ps[1..]| ensures ps[1..][j].id != id {
          assert ps[1..][j] == ps[j + 1];
        }
      }
    } else {
      assert IdsUnique(ps[1..]);
      assert ps[1..][i - 1] == ps[i];
      BalanceWithoutPayment(cons, ps[1..], i - 1, c);
    }
  }

  /** Every consultation's stored total cost equals the sum of its charges. */
  predicate CostsMatch(cs: seq<Row<Consultation>>, tps: seq<Row<ToothProcedure>>) {
    forall i :: 0 <= i < |cs| ==> cs[i].data.totalCost == TotalCharged(tps, cs[i].id)
  }

  /** A consultation added with the total of its charges keeps every total right. */
  lemma CostsMatchAppend(cs: seq<Row<Consultation>>, tps: seq<Row<ToothProcedure>>, row: Row<Consultation>)
    requires CostsMatch(cs, tps) && row.data.totalCost == TotalCharged(tps, row.id)
    ensures CostsMatch(cs + [row], tps)
  {
    forall i | 0 <= i < |cs| + 1 ensures (cs + [row])[i].data.totalCost == TotalCharged(tps, (cs + [row])[i].id) {
      if i < |cs| {
        assert (cs + [row])[i] == cs[i];
      }
    }
  }

  /** Updating a consultation without touching its total keeps every total right. */
  lemma CostsMatchReplace(cs: seq<Row<Consultation>>, tps: seq<Row<ToothProcedure>>, id: nat, c: Consultation)
    requires IdsUnique(cs) && CostsMatch(cs, tps) && HasId(cs, id) && c.totalCost == Lookup(cs, id).value.totalCost
    ensures CostsMatch(Replace(cs, id, c), tps)
  {
    var r := Replace(cs, id, c);
    forall j | 0 <= j < |r| ensures r[j].data.totalCost == TotalCharged(tps, r[j].id) {
      if cs[j].id == id {
        assert cs[j].data == Lookup(cs, id).value;
      }
    }
  }

  /** The table of consultations after `total_cost` of c is recomputed over tps. */
  function Recomputed(cs: seq<Row<Consultation>>, tps: seq<Row<ToothProcedure>>, c: nat): seq<Row<Consultation>>
    requires HasId(cs, c)
  {
    Replace(cs, c, Lookup(cs, c).value.(totalCost := TotalCharged(tps, c)))
  }

  /** Recomputing the one consultation whose charges changed restores the
    * match for every consultation, provided only that consultation's sum moved. */
  lemma {:induction false} RecomputedMatches(cs: seq<Row<Consultation>>, tps: seq<Row<ToothProcedure>>,
                                            tps': seq<Row<ToothProcedure>>, c: nat)
    requires IdsUnique(cs) && HasId(cs, c) && CostsMatch(cs, tps)
    requires forall d :: d != c ==> TotalCharged(tps', d) == TotalCharged(tps, d)
    ensures CostsMatch(Recomputed(cs, tps', c), tps')
  {
    var r := Recomputed(cs, tps', c);
    forall i | 0 <= i < |r| ensures r[i].data.totalCost == TotalCharged(tps', r[i].id) {
      if cs[i].id == c {
        assert r[i].data == Lookup(cs, c).value.(totalCost := TotalCharged(tps', c));
      } else {
        assert r[i] == cs[i];
      }
    }
  }

  /** Deleting consultation d together with its charges keeps every other consultation's match. */
  lemma CostsMatchWithout(cs: seq<Row<Consultation>>, tps: seq<Row<ToothProcedure>>,
                          tps': seq<Row<ToothProcedure>>, d: nat)
    requires CostsMatch(cs, tps)
    requires forall c :: c != d ==> TotalCharged(tps', c) == TotalCharged(tps, c)
    ensures CostsMatch(Without(cs, d), tps')
  {
    var r := Without(cs, d);
    forall j | 0 <= j < |r| ensures r[j].data.totalCost == TotalCharged(tps', r[j].id) {
      assert r[j] in cs;
    }
  }

  /** Adding a charge for consultation c moves only c's sum, by the price charged. */
  lemma ChargeMovesOnlyItsConsultation(tps: seq<Row<ToothProcedure>>, row: Row<ToothProcedure>)
    ensures TotalCharged(tps + [row], row.data.consultation)
            == TotalCharged(tps, row.data.consultation) + row.data.priceCharged
    ensures forall d :: d != row.data.consultation ==> TotalCharged(tps + [row], d) == TotalCharged(tps, d)
  {
    forall d ensures TotalCharged(tps + [row], d)
                     == TotalCharged(tps, d) + (if row.data.consultation == d then row.data.priceCharged else 0) {
      TotalChargedAdd(tps, row, d);
    }
  }

  /** Deleting the charge at position i moves only its consultation's sum, by its price. */
  lemma UnchargeMovesOnlyItsConsultation(tps: seq<Row<ToothProcedure>>, i: nat)
    requires IdsUnique(tps) && i < |tps|
    ensures TotalCharged(Without(tps, tps[i].id), tps[i].data.consultation)
            == TotalCharged(tps, tps[i].data.consultation) - tps[i].data.priceCharged
    ensures forall d :: d != tps[i].data.consultation ==> TotalCharged(Without(tps, tps[i].id), d) == TotalCharged(tps, d)
  {
    forall d ensures TotalCharged(Without(tps, tps[i].id), d)
                     == TotalCharged(tps, d) - (if tps[i].data.consultation == d then tps[i].data.priceCharged else 0) {
      TotalChargedWithout(tps, i, d);
    }
  }

  /** `ToothProcedure.save`: a falsy price (unset, or zero) is replaced by the
    * catalog's base price; any other given price is kept. */
  function ChargedPrice(given: Option<Cents>, basePrice: Cents): (r: Cents)
    ensures given.Some? && given.value != 0 ==> r == given.value
    ensures given.None? || given.value == 0 ==> r == basePrice
  {
    match given
    case Some(p) => if p != 0 then p else basePrice
    case None => basePrice
  }

  /** Saving a stored tooth procedure again after the catalog price has changed
    * keeps the price it was charged, unless that price was zero. */
  lemma ChargedPriceNotResynced(given: Option<Cents>, basePrice: Cents, newBasePrice: Cents)
    ensures ChargedPrice(given, basePrice) != 0 ==>
              ChargedPrice(Some(ChargedPrice(given, basePrice)), newBasePrice) == ChargedPrice(given, basePrice)
    ensures ChargedPrice(given, basePrice) == 0 ==>
              ChargedPrice(Some(ChargedPrice(given, basePrice)), newBasePrice) == newBasePrice
  {
  }

  // ------------------------------------------------------------ Appointment

  datatype Appointment = Appointment(
    patient: nat,
    user: Option<nat>,
    date: Date,
    startTime: Time,
    endTime: Time,
    reason: string,
    status: char,                 // 'P', 'C', 'A' or 'X'; 'P' by default
    consultation: Option<nat>)

  const MicrosPerMinute: int := 60_000_000

  function Micros(t: Time): int {
    ((t.hour * 60 + t.minute) * 60 + t.second) * 1_000_000 + t.microsecond
  }

  /** `Appointment.duration_minutes`: end minus start on the appointment's own
    * date, in whole minutes truncated toward zero (zero or negative when the end lies
    * before the start, zero when less than a minute before). */
  function DurationMinutes(a: Appointment): (r: int)
    ensures var d := Micros(a.endTime) - Micros(a.startTime);
            && (d >= 0 ==> r >= 0 && r * MicrosPerMinute <= d < (r + 1) * MicrosPerMinute)
            && (d < 0 ==> r <= 0 && (r - 1) * MicrosPerMinute < d <= r * MicrosPerMinute)
  {
    var d := Micros(a.endTime) - Micros(a.startTime);
    if d >= 0 then d / MicrosPerMinute else -((-d) / MicrosPerMinute)
  }

  /** For times on whole minutes the duration is exactly the difference in minutes. */
  lemma DurationOfWholeMinutes(a: Appointment)
    requires a.startTime.second == 0 && a.startTime.microsecond == 0
    requires a.endTime.second == 0 && a.endTime.microsecond == 0
    ensures DurationMinutes(a) == (a.endTime.hour * 60 + a.endTime.minute) - (a.startTime.hour * 60 + a.startTime.minute)
  {
    var m := (a.endTime.hour * 60 + a.endTime.minute) - (a.startTime.hour * 60 + a.startTime.minute);
    assert Micros(a.endTime) - Micros(a.startTime) == m * MicrosPerMinute;
    var r := DurationMinutes(a);
    if m >= 0 {
      assert r * MicrosPerMinute <= m * MicrosPerMinute < (r + 1) * MicrosPerMinute;
    } else {
      assert (r - 1) * MicrosPerMinute < m * MicrosPerMinute <= r * MicrosPerMinute;
    }
  }

  /** The unique constraint on (date, start_time, user). NULL users never clash,
    * as in SQL. */
  predicate SlotsClash(a: Appointment, b: Appointment) {
    a.date == b.date && a.startTime == b.startTime && a.user.Some? && a.user == b.user
  }

  predicate SlotsUnique(rows: seq<Row<Appointment>>) {
    forall i, j :: 0 <= i < j < |rows| ==> !SlotsClash(rows[i].data, rows[j].data)
  }

  // --------------------------------------------------- Referential protection

  /** A catalog procedure is protected while some tooth procedure refers to it. */
  predicate ProcedureInUse(tps: seq<Row<ToothProcedure>>, p: nat) {
    exists i :: 0 <= i < |tps| && tps[i].data.procedure == p
  }

  // ----------------------------------------------------- Table-level helpers

  /** A patient has at most one clinical history (the one-to-one relation). */
  predicate HistoriesOneToOne(hs: seq<Row<History>>) {
    forall i, j :: 0 <= i < j < |hs| ==> hs[i].data.patient != hs[j].data.patient
  }

  /** `Procedure.name` is unique. */
  predicate ProcedureNamesUnique(rows: seq<Row<Procedure>>) {
    forall i, j :: 0 <= i < j < |rows| ==> rows[i].data.name != rows[j].data.name
  }

  /** A DELETE from the catalog keeps its names unique. */
  lemma {:induction false} WithoutKeepsNamesUnique(rows: seq<Row<Procedure>>, id: nat)
    requires ProcedureNamesUnique(rows)
    ensures ProcedureNamesUnique(Without(rows, id))
  {
    if rows != [] {
      assert ProcedureNamesUnique(rows[1..]);
      WithoutKeepsNamesUnique(rows[1..], id);
      var rest := Without(rows[1..], id);
      if rows[0].id != id {
        forall x | x in rest ensures x.data.name != rows[0].data.name {
          var j :| 0 <= j < |rows[1..]| && rows[1..][j] == x;
          assert rows[j + 1] == x;
        }
      }
    }
  }

  /** `Patient.id_number` is unique among the patients that have one. */
  predicate IdNumbersUnique(rows: seq<Row<Patient>>) {
    forall i, j :: 0 <= i < j < |rows| && rows[i].data.idNumber.Some? ==> rows[i].data.idNumber != rows[j].data.idNumber
  }

  /** `patient.history`: the key of the patient's clinical history, if any. */
  function HistoryIdOf(hs: seq<Row<History>>, p: nat): (r: Option<nat>)
    ensures r.None? <==> forall i :: 0 <= i < |hs| ==> hs[i].data.patient != p
    ensures r.Some? ==> exists i :: 0 <= i < |hs| && hs[i].id == r.value && hs[i].data.patient == p
  {
    if hs == [] then None
    else if hs[0].data.patient == p then Some(hs[0].id)
    else
      var r := HistoryIdOf(hs[1..], p);
      assert forall i :: 1 <= i < |hs| ==> hs[i] == hs[1..][i - 1];
      r
  }

  /** Appending a history row for a patient that had none makes it theirs. */
  lemma {:induction false} HistoryIdOfAppend(hs: seq<Row<History>>, p: nat, row: Row<History>)
    requires HistoryIdOf(hs, p).None?
    ensures HistoryIdOf(hs + [row], p) == if row.data.patient == p then Some(row.id) else None
  {
    if hs != [] {
      assert (hs + [row])[1..] == hs[1..] + [row];
      HistoryIdOfAppend(hs[1..], p, row);
    }
  }

  /** Under the one-to-one relation the history found is the patient's only
    * one, and looking its key up gives a history of that patient. */
  lemma {:induction false} HistoryIdOfFacts(hs: seq<Row<History>>, p: nat)
    ensures HistoryIdOf(hs, p).Some? && IdsUnique(hs) ==>
              Lookup(hs, HistoryIdOf(hs, p).value).Some? && Lookup(hs, HistoryIdOf(hs, p).value).value.patient == p
    ensures HistoriesOneToOne(hs) ==>
              forall i :: 0 <= i < |hs| && hs[i].data.patient == p ==> HistoryIdOf(hs, p) == Some(hs[i].id)
  {
    if hs != [] && hs[0].data.patient != p {
      HistoryIdOfFacts(hs[1..], p);
      assert forall i :: 1 <= i < |hs| ==> hs[i] == hs[1..][i - 1];
    }
  }

  /** The fresh batch takes keys first..first+31, all unused in a table whose keys lie below `first`. */
  lemma FreshBatchKeys(rows: seq<Row<Tooth>>, h: nat, first: nat)
    requires IdsUnique(rows) && IdsBelow(rows, first)
    ensures IdsUnique(rows + FreshTeeth(h, first)) && IdsBelow(rows + FreshTeeth(h, first), first + TeethPerChart)
  {
  }

  /** The cascade of deleting consultation c: its tooth procedures go with it. */
  function DropConsultation(tps: seq<Row<ToothProcedure>>, c: nat): (r: seq<Row<ToothProcedure>>)
    ensures forall x :: x in r <==> x in tps && x.data.consultation != c
  {
    Keep(tps, (tp: ToothProcedure) => tp.consultation != c)
  }

  /** SET_NULL on deleting consultation c: appointments linked to it lose the link. */
  function UnlinkConsultation(rows: seq<Row<Appointment>>, c: nat): (r: seq<Row<Appointment>>)
    ensures |r| == |rows|
    ensures forall i :: 0 <= i < |rows| ==> r[i].id == rows[i].id
    ensures forall i :: 0 <= i < |rows| ==>
              r[i].data == if rows[i].data.consultation == Some(c) then rows[i].data.(consultation := None) else rows[i].data
  {
    seq(|rows|, i requires 0 <= i < |rows| =>
      if rows[i].data.consultation == Some(c) then Row(rows[i].id, rows[i].data.(consultation := None)) else rows[i])
  }

  /** The foreign keys of appointment a point at stored rows: its patient, and
    * its consultation when it has one. */
  predicate AppointmentLinked(ps: seq<Row<Patient>>, cs: seq<Row<Consultation>>, a: Appointment) {
    HasId(ps, a.patient) && (a.consultation.Some? ==> HasId(cs, a.consultation.value))
  }

  /** Every appointment's foreign keys point at stored rows. */
  predicate AppointmentsLinked(rows: seq<Row<Appointment>>, ps: seq<Row<Patient>>, cs: seq<Row<Consultation>>) {
    forall i :: 0 <= i < |rows| ==> AppointmentLinked(ps, cs, rows[i].data)
  }

  /** Some appointment other than the one with key `except` already holds a's slot. */
  predicate SlotTaken(rows: seq<Row<Appointment>>, a: Appointment, except: Option<nat>) {
    exists i :: 0 <= i < |rows| && Some(rows[i].id) != except && SlotsClash(rows[i].data, a)
  }

  /** `tooth.status = s; tooth.save()` on the tooth with key `id`: that row's
    * status becomes s and every other column and row stays as it was. */
  function WithStatus(rows: seq<Row<Tooth>>, id: nat, s: ToothStatus): (r: seq<Row<Tooth>>)
    ensures |r| == |rows|
    ensures forall i :: 0 <= i < |rows| ==>
              r[i].id == rows[i].id && r[i].data.history == rows[i].data.history && r[i].data.number == rows[i].data.number
    ensures forall i :: 0 <= i < |rows| && rows[i].id == id ==> r[i].data.status == s
    ensures forall i :: 0 <= i < |rows| && rows[i].id != id ==> r[i] == rows[i]
  {
    seq(|rows|, i requires 0 <= i < |rows| => if rows[i].id == id then Row(id, rows[i].data.(status := s)) else rows[i])
  }

  /** A status change never adds or removes a tooth of any history. */
  lemma {:induction false} WithStatusKeepsCount(rows: seq<Row<Tooth>>, id: nat, s: ToothStatus, h: nat)
    ensures CountTeeth(WithStatus(rows, id, s), h) == CountTeeth(rows, h)
  {
    if rows != [] {
      assert WithStatus(rows, id, s)[1..] == WithStatus(rows[1..], id, s);
      WithStatusKeepsCount(rows[1..], id, s, h);
    }
  }

  /** A status change keeps the chart constraints and the set of keys. */
  lemma WithStatusKeepsChart(rows: seq<Row<Tooth>>, id: nat, s: ToothStatus)
    requires TeethWellFormed(rows)
    ensures TeethWellFormed(WithStatus(rows, id, s))
    ensures forall x :: HasId(WithStatus(rows, id, s), x) <==> HasId(rows, x)
    ensures forall h :: CountTeeth(WithStatus(rows, id, s), h) == CountTeeth(rows, h)
  {
    var r := WithStatus(rows, id, s);
    forall x ensures HasId(r, x) <==> HasId(rows, x) {
      if HasId(rows, x) {
        var i :| 0 <= i < |rows| && rows[i].id == x;
        assert r[i].id == x;
      }
    }
    forall h ensures CountTeeth(r, h) == CountTeeth(rows, h) {
      WithStatusKeepsCount(rows, id, s, h);
    }
  }

  /** Dropping rows that belong to other consultations leaves c's sum unchanged. */
  lemma {:induction false} TotalChargedKeep(tps: seq<Row<ToothProcedure>>, keep: ToothProcedure -> bool, c: nat)
    requires forall tp :: !keep(tp) ==> tp.consultation != c
    ensures TotalCharged(Keep(tps, keep), c) == TotalCharged(tps, c)
  {
    if tps != [] {
      TotalChargedKeep(tps[1..], keep, c);
      if keep(tps[0].data) {
        assert ([tps[0]] + Keep(tps[1..], keep))[1..] == Keep(tps[1..], keep);
      }
    }
  }

  /** The cascade of deleting consultation d leaves the charges of every other consultation intact. */
  lemma TotalChargedDrop(tps: seq<Row<ToothProcedure>>, d: nat, c: nat)
    requires c != d
    ensures TotalCharged(DropConsultation(tps, d), c) == TotalCharged(tps, c)
  {
    TotalChargedKeep(tps, (tp: ToothProcedure) => tp.consultation != d, c);
  }

  /** Saving new field values into history h keeps its patient, so the
    * one-to-one relation and every patient's history key are unchanged. */
  lemma ReplaceHistoryFields(hs: seq<Row<History>>, h: nat, fields: map<HistoryField, string>)
    requires IdsUnique(hs) && HistoriesOneToOne(hs) && Lookup(hs, h).Some?
    ensures HistoriesOneToOne(Replace(hs, h, History(Lookup(hs, h).value.patient, fields)))
    ensures forall p :: HistoryIdOf(Replace(hs, h, History(Lookup(hs, h).value.patient, fields)), p) == HistoryIdOf(hs, p)
  {
    var r := Replace(hs, h, History(Lookup(hs, h).value.patient, fields));
    assert forall i :: 0 <= i < |hs| ==> r[i].data.patient == hs[i].data.patient;
    forall p ensures HistoryIdOf(r, p) == HistoryIdOf(hs, p) {
      if HistoryIdOf(hs, p).Some? {
        var i :| 0 <= i < |hs| && hs[i].id == HistoryIdOf(hs, p).value && hs[i].data.patient == p;
        assert r[i].id == hs[i].id && r[i].data.patient == p;
        HistoryIdOfFacts(r, p);
      }
    }
  }

  // ------------------------------------------- Foreign keys across updates

  /** Every key of `rows` is still a key of `rows'`. */
  ghost predicate KeysKept<T>(rows: seq<Row<T>>, rows': seq<Row<T>>) {
    forall x :: HasId(rows, x) ==> HasId(rows', x)
  }

  /** Links into the consultations survive a change that keeps their keys. */
  lemma ConsultationKeysKept(cs: seq<Row<Consultation>>, cs': seq<Row<Consultation>>,
                             tps: seq<Row<ToothProcedure>>, ts: seq<Row<Tooth>>, procs: seq<Row<Procedure>>,
                             pays: seq<Row<Payment>>, apps: seq<Row<Appointment>>, ps: seq<Row<Patient>>)
    requires KeysKept(cs, cs')
    requires ChargesLinked(tps, cs, ts, procs) && PaymentsLinked(pays, cs) && AppointmentsLinked(apps, ps, cs)
    ensures ChargesLinked(tps, cs', ts, procs) && PaymentsLinked(pays, cs') && AppointmentsLinked(apps, ps, cs')
  {
    forall i | 0 <= i < |apps| ensures AppointmentLinked(ps, cs', apps[i].data) {
      assert AppointmentLinked(ps, cs, apps[i].data);
    }
  }

  /** Links into the patients survive a change that keeps their keys. */
  lemma PatientKeysKept(ps: seq<Row<Patient>>, ps': seq<Row<Patient>>, hs: seq<Row<History>>,
                        cs: seq<Row<Consultation>>, apps: seq<Row<Appointment>>)
    requires KeysKept(ps, ps')
    requires HistoriesOwned(hs, ps) && ConsultationsOwned(cs, ps) && AppointmentsLinked(apps, ps, cs)
    ensures HistoriesOwned(hs, ps') && ConsultationsOwned(cs, ps') && AppointmentsLinked(apps, ps', cs)
  {
    forall i | 0 <= i < |apps| ensures AppointmentLinked(ps', cs, apps[i].data) {
      assert AppointmentLinked(ps, cs, apps[i].data);
    }
  }

  /** Links into the teeth survive a change that keeps their keys. */
  lemma ToothKeysKept(ts: seq<Row<Tooth>>, ts': seq<Row<Tooth>>, tps: seq<Row<ToothProcedure>>,
                      cs: seq<Row<Consultation>>, procs: seq<Row<Procedure>>)
    requires KeysKept(ts, ts') && ChargesLinked(tps, cs, ts, procs)
    ensures ChargesLinked(tps, cs, ts', procs)
  {
  }

  /** Links into the histories survive a change that keeps their keys. */
  lemma HistoryKeysKept(hs: seq<Row<History>>, hs': seq<Row<History>>, ts: seq<Row<Tooth>>)
    requires KeysKept(hs, hs') && TeethOwned(ts, hs)
    ensures TeethOwned(ts, hs')
  {
  }
}
