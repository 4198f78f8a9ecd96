/**
 * The decisions the page handlers of management/views.py make on values: the
 * tooth-status rule applied after a procedure, the patient search, the
 * dashboard figures, the balance shown and the suggested payment, and the
 * merge of the clinical-history form into a freshly provisioned history.
 */
module Views {
  import opened Common
  import opened Tables
  import opened Strings
  import opened Sorting
  import opened Models

  // ------------------------------------------------------ Tooth-status rule

  const ExtractionWord: string := "extracci\U{F3}n"
  const ExtractionStem: string := "extracci"
  const FillingWord: string := "obturaci\U{F3}n"
  const ResinWord: string := "resina"

  /** The status a tooth takes when a procedure of this name is applied to it:
    * extraction wins over filling, and anything else leaves the tooth pending treatment. */
  function StatusAfterProcedure(procedureName: string): (r: ToothStatus)
    ensures r == Extracted <==> Contains(Lower(procedureName), ExtractionStem)
    ensures r == Filled <==>
              !Contains(Lower(procedureName), ExtractionStem) &&
              (Contains(Lower(procedureName), FillingWord) || Contains(Lower(procedureName), ResinWord))
    ensures r == PendingTreatment <==>
              !Contains(Lower(procedureName), ExtractionStem) &&
              !Contains(Lower(procedureName), FillingWord) && !Contains(Lower(procedureName), ResinWord)
  {
    var name := Lower(procedureName);
    if Contains(name, ExtractionWord) || Contains(name, ExtractionStem) then
      assert Contains(name, ExtractionStem) by {
        if Contains(name, ExtractionWord) {
          assert IsPrefix(ExtractionStem, ExtractionWord);
          ContainsPrefixOf(name, ExtractionWord, ExtractionStem);
        }
      }
      Extracted
    else if Contains(name, FillingWord) || Contains(name, ResinWord) then Filled
    else PendingTreatment
  }

  /** The tooth choices of the procedure form: the teeth of the patient's
    * history when the patient has one, and every tooth otherwise. A submitted
    * tooth outside them makes the form invalid. */
  predicate ToothSelectable(hs: seq<Row<History>>, ts: seq<Row<Tooth>>, patient: nat, tooth: nat) {
    match HistoryIdOf(hs, patient)
    case Some(h) => exists i :: 0 <= i < |ts| && ts[i].id == tooth && ts[i].data.history == h
    case None => HasId(ts, tooth)
  }

  // -------------------------------------------------------- Patient search

  /** `field__icontains=query` on a text column. */
  predicate IContains(field: string, query: string) {
    Contains(Lower(field), Lower(query))
  }

  /** The search condition: the query occurs, ignoring case, in the first name,
    * a surname or the id number. A NULL column never matches. */
  predicate Matches(p: Patient, query: string) {
    || IContains(p.firstName, query)
    || IContains(p.paternalSurname, query)
    || (p.maternalSurname.Some? && IContains(p.maternalSurname.value, query))
    || (p.idNumber.Some? && IContains(p.idNumber.value, query))
  }

  function FilterMatching(rows: seq<Row<Patient>>, query: string): (r: seq<Row<Patient>>)
    ensures forall x :: x in r <==> x in rows && Matches(x.data, query)
  {
    if rows == [] then []
    else if Matches(rows[0].data, query) then [rows[0]] + FilterMatching(rows[1..], query)
    else FilterMatching(rows[1..], query)
  }

  /** `order_by('paternal_surname', 'first_name')`. */
  predicate PatientOrder(a: Row<Patient>, b: Row<Patient>) {
    if a.data.paternalSurname != b.data.paternalSurname then StrLe(a.data.paternalSurname, b.data.paternalSurname)
    else StrLe(a.data.firstName, b.data.firstName)
  }

  lemma PatientOrderIsTotalPreorder()
    ensures TotalPreorder(PatientOrder)
  {
    forall a, b ensures PatientOrder(a, b) || PatientOrder(b, a) {
      StrLeTotal(a.data.paternalSurname, b.data.paternalSurname);
      StrLeTotal(a.data.firstName, b.data.firstName);
    }
    forall a, b, c | PatientOrder(a, b) && PatientOrder(b, c) ensures PatientOrder(a, c) {
      var pa, pb, pc := a.data.paternalSurname, b.data.paternalSurname, c.data.paternalSurname;
      if pa != pb && pb != pc {
        StrLeTransitive(pa, pb, pc);
        if pa == pc {
          StrLeAntisymmetric(pa, pb);
        }
      } else if pa == pb && pb == pc {
        StrLeTransitive(a.data.firstName, b.data.firstName, c.data.firstName);
      }
    }
  }

  /** `patient_list`: with a non-empty query, the matching patients; with an
    * empty one, all patients; ordered by paternal surname, then first name. */
  function SearchPatients(rows: seq<Row<Patient>>, query: string): (r: seq<Row<Patient>>)
    ensures SortedBy(r, PatientOrder)
    ensures query == "" ==> multiset(r) == multiset(rows)
    ensures query != "" ==> multiset(r) == multiset(FilterMatching(rows, query))
    ensures forall x :: x in r <==> x in rows && (query == "" || Matches(x.data, query))
  {
    var selected := if query != "" then FilterMatching(rows, query) else rows;
    PatientOrderIsTotalPreorder();
    SortCorrect(selected, PatientOrder);
    var r := Sort(selected, PatientOrder);
    assert forall x :: x in r <==> x in multiset(selected);
    r
  }

  // ------------------------------------------------------------- Dashboard

  /** A consultation awaiting payment: its total cost is not zero and either it
    * has no payments at all (the paid sum is NULL) or they add up to less than its cost. */
  predicate IsPending(row: Row<Consultation>, ps: seq<Row<Payment>>) {
    row.data.totalCost != 0 &&
    (!HasPayments(ps, row.id) || TotalPaid(ps, row.id) < row.data.totalCost)
  }

  /** All pending consultations, in the order given. */
  function AllPending(cs: seq<Row<Consultation>>, ps: seq<Row<Payment>>): (r: seq<Row<Consultation>>)
    ensures forall x :: x in r <==> x in cs && IsPending(x, ps)
    ensures |r| <= |cs|
  {
    if cs == [] then []
    else if IsPending(cs[0], ps) then [cs[0]] + AllPending(cs[1..], ps)
    else AllPending(cs[1..], ps)
  }

  const DashboardLimit: nat := 5

  /** The dashboard's pending list: the first `limit` pending consultations. */
  function PendingConsultations(cs: seq<Row<Consultation>>, ps: seq<Row<Payment>>, limit: nat): (r: seq<Row<Consultation>>)
    ensures |r| == if |AllPending(cs, ps)| < limit then |AllPending(cs, ps)| else limit
    ensures r == AllPending(cs, ps)[..|r|]
  {
    if cs == [] || limit == 0 then []
    else if IsPending(cs[0], ps) then [cs[0]] + PendingConsultations(cs[1..], ps, limit - 1)
    else PendingConsultations(cs[1..], ps, limit)
  }

  /** Every consultation on the dashboard list is pending, and when fewer than
    * the limit are listed, every pending consultation is listed. */
  lemma PendingListSound(cs: seq<Row<Consultation>>, ps: seq<Row<Payment>>)
    ensures var r := PendingConsultations(cs, ps, DashboardLimit);
            && |r| <= DashboardLimit
            && (forall x :: x in r ==> x in cs && IsPending(x, ps))
            && (|r| < DashboardLimit ==> forall x :: x in cs && IsPending(x, ps) ==> x in r)
  {
    var r := PendingConsultations(cs, ps, DashboardLimit);
    var all := AllPending(cs, ps);
    forall x | x in r ensures x in all {
      var i :| 0 <= i < |r| && r[i] == x;
      assert all[..|r|][i] == x;
    }
  }

  /** `monthly_income`: the payments dated in the given month of the given year, summed. */
  function MonthlyIncome(ps: seq<Row<Payment>>, month: int, year: int): (r: Cents)
    ensures (forall i :: 0 <= i < |ps| ==> ps[i].data.date.month != month || ps[i].data.date.year != year) ==> r == 0
  {
    if ps == [] then 0
    else
      var rest := MonthlyIncome(ps[1..], month, year);
      (if ps[0].data.date.month == month && ps[0].data.date.year == year then ps[0].data.amount else 0) + rest
  }

  lemma {:induction false} MonthlyIncomeAppend(ps: seq<Row<Payment>>, row: Row<Payment>, month: int, year: int)
    ensures MonthlyIncome(ps + [row], month, year)
            == MonthlyIncome(ps, month, year)
               + (if row.data.date.month == month && row.data.date.year == year then row.data.amount else 0)
  {
    if ps != [] {
      assert (ps + [row])[1..] == ps[1..] + [row];
      MonthlyIncomeAppend(ps[1..], row, month, year);
    } else {
      assert ps + [row] == [row];
    }
  }

  // ------------------------------------------------------ Balance and payment

  /** `consultation_detail`: the amount paid and the balance it shows, which is
    * the consultation's balance over its stored total cost. */
  function DetailTotals(cons: Consultation, ps: seq<Row<Payment>>, c: nat): (r: (Cents, Cents))
    ensures r.0 == TotalPaid(ps, c)
    ensures r.1 == Balance(cons, ps, c)
    ensures !HasPayments(ps, c) ==> r.0 == 0 && r.1 == cons.totalCost
  {
    var paid := TotalPaid(ps, c);
    (paid, cons.totalCost - paid)
  }

  /** `payment_create` on GET: the amount the payment form starts with, the
    * balance when something is owed and nothing otherwise. */
  function SuggestedPayment(cons: Consultation, ps: seq<Row<Payment>>, c: nat): (r: Option<Cents>)
    ensures r.Some? <==> Balance(cons, ps, c) > 0
    ensures r.Some? ==> r.value == Balance(cons, ps, c) && r.value > 0
  {
    var balance := cons.totalCost - TotalPaid(ps, c);
    if balance > 0 then Some(balance) else None
  }

  // -------------------------------------------------- Clinical-history form

  /** One entry of the history form's cleaned data: a field and its value. */
  type FormEntry = (HistoryField, Option<string>)

  /** The history fields after setting, in order, every entry whose value is filled. */
  function MergedFields(fields: map<HistoryField, string>, data: seq<FormEntry>): map<HistoryField, string>
    decreases |data|
  {
    if data == [] then fields
    else
      var next := if HasText(data[0].1) then fields[data[0].0 := data[0].1.value] else fields;
      MergedFields(next, data[1..])
  }

  /** The last filled value the form gives for field f, if any. */
  function LastFilled(data: seq<FormEntry>, f: HistoryField): Option<string> {
    if data == [] then None
    else match LastFilled(data[1..], f)
      case Some(v) => Some(v)
      case None => if data[0].0 == f && HasText(data[0].1) then data[0].1 else None
  }

  /** After the merge a field holds the last filled value the form gives for it;
    * a field the form leaves empty keeps what the history had (or stays NULL). */
  lemma {:induction false} MergedFieldsMeaning(fields: map<HistoryField, string>, data: seq<FormEntry>, f: HistoryField)
    ensures LastFilled(data, f).Some? ==>
              f in MergedFields(fields, data) && MergedFields(fields, data)[f] == LastFilled(data, f).value
    ensures LastFilled(data, f).None? ==>
              (f in MergedFields(fields, data) <==> f in fields) &&
              (f in fields ==> MergedFields(fields, data)[f] == fields[f])
    decreases |data|
  {
    if data != [] {
      var next := if HasText(data[0].1) then fields[data[0].0 := data[0].1.value] else fields;
      MergedFieldsMeaning(next, data[1..], f);
    }
  }

  /** `patient_create`: the loop copying every filled value of the history form onto the history. */
  method MergeCleanedData(fields: map<HistoryField, string>, data: seq<FormEntry>) returns (merged: map<HistoryField, string>)
    ensures merged == MergedFields(fields, data)
  {
    merged := fields;
    var i := 0;
    while i < |data|
      invariant 0 <= i <= |data|
      invariant MergedFields(merged, data[i..]) == MergedFields(fields, data)
    {
      var (field, value) := data[i];
      assert data[i..][1..] == data[i + 1..];
      if value.Some? && value.value != "" {
        merged := merged[field := value.value];
      }
      i := i + 1;
    }
  }
}
