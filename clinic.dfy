/**
 * The clinic's database as one object whose tables the request handlers and
 * the post-save signal handlers update in place. Each table is a sequence of
 * rows in insertion order; `nextId` hands out primary keys.
 */
module Clinic {
  import opened Common
  import opened Tables
  import opened Models
  import Views
  import Admin

  /** What `create_teeth_if_missing` did, as it reports it in the log. */
  datatype TeethCheck =
    | Created                   // the 32 teeth were inserted
    | CreationFailed            // the batch insert failed; the error was swallowed
    | PartialWarning(count: nat) // 1..31 teeth: only a warning
    | AlreadyComplete           // 32 teeth or more: nothing to do

  /** The inline formsets of the consultation admin page. */
  datatype InlineModel = ToothProcedureInline | PaymentInline

  /** Primary keys are unique per table and below `next`. */
  ghost predicate KeysValid(patients: seq<Row<Patient>>, histories: seq<Row<History>>, teeth: seq<Row<Tooth>>,
                            consultations: seq<Row<Consultation>>, procedures: seq<Row<Procedure>>,
                            toothProcedures: seq<Row<ToothProcedure>>, payments: seq<Row<Payment>>,
                            appointments: seq<Row<Appointment>>, next: nat)
  {
    && IdsUnique(patients) && IdsBelow(patients, next)
    && IdsUnique(histories) && IdsBelow(histories, next)
    && IdsUnique(teeth) && IdsBelow(teeth, next)
    && IdsUnique(consultations) && IdsBelow(consultations, next)
    && IdsUnique(procedures) && IdsBelow(procedures, next)
    && IdsUnique(toothProcedures) && IdsBelow(toothProcedures, next)
    && IdsUnique(payments) && IdsBelow(payments, next)
    && IdsUnique(appointments) && IdsBelow(appointments, next)
  }

  /** The constraints of the schema that the model keeps, over the eight tables. */
  ghost predicate Schema(patients: seq<Row<Patient>>, histories: seq<Row<History>>, teeth: seq<Row<Tooth>>,
                         consultations: seq<Row<Consultation>>, procedures: seq<Row<Procedure>>,
                         toothProcedures: seq<Row<ToothProcedure>>, payments: seq<Row<Payment>>,
                         appointments: seq<Row<Appointment>>, next: nat)
  {
    && KeysValid(patients, histories, teeth, consultations, procedures, toothProcedures, payments, appointments, next)
    // Patient.id_number and Procedure.name are unique
    && IdNumbersUnique(patients) && ProcedureNamesUnique(procedures)
    // ClinicalHistory.patient is a one-to-one foreign key
    && HistoriesOneToOne(histories)
    && HistoriesOwned(histories, patients)
    // Tooth.number_ada in 1..32, unique_together (history, number_ada)
    && TeethWellFormed(teeth)
    // Tooth.history is a foreign key
    && TeethOwned(teeth, histories)
    // Consultation.patient is a foreign key
    && ConsultationsOwned(consultations, patients)
    // ToothProcedure.consultation (CASCADE), ToothProcedure.tooth and ToothProcedure.procedure (PROTECT)
    && ChargesLinked(toothProcedures, consultations, teeth, procedures)
    // Payment.consultation (PROTECT)
    && PaymentsLinked(payments, consultations)
    // Appointment.patient and the optional Appointment.consultation (SET_NULL)
    && AppointmentsLinked(appointments, patients, consultations)
    // Appointment: unique_together (date, start_time, user)
    && SlotsUnique(appointments)
  }

  class Database {
    var patients: seq<Row<Patient>>
    var histories: seq<Row<History>>
    var teeth: seq<Row<Tooth>>
    var consultations: seq<Row<Consultation>>
    var procedures: seq<Row<Procedure>>
    var toothProcedures: seq<Row<ToothProcedure>>
    var payments: seq<Row<Payment>>
    var appointments: seq<Row<Appointment>>
    var nextId: nat

    /** The constraints of the schema that the model keeps. */
    ghost predicate Valid()
      reads this
    {
      Schema(patients, histories, teeth, consultations, procedures, toothProcedures, payments, appointments, nextId)
    }

    /** The stored total cost of consultation c equals the sum of its charges. */
    ghost predicate CostConsistent(c: nat)
      reads this
    {
      match Lookup(consultations, c)
      case Some(cons) => cons.totalCost == TotalCharged(toothProcedures, c)
      case None => true
    }

    ghost predicate AllCostsConsistent()
      reads this
    {
      CostsMatch(consultations, toothProcedures)
    }

    constructor ()
      ensures Valid() && AllCostsConsistent()
      ensures patients == [] && histories == [] && teeth == [] && consultations == []
      ensures procedures == [] && toothProcedures == [] && payments == [] && appointments == []
    {
      patients, histories, teeth, consultations := [], [], [], [];
      procedures, toothProcedures, payments, appointments := [], [], [], [];
      nextId := 1;
    }

    // ========================================================= signals.py

    /** `Tooth.objects.bulk_create` of the 32 fresh teeth of history h inside
      * `transaction.atomic()`: all of them are stored or, when the storage
      * layer rejects the batch (`accepted` false), none. */
    method BulkCreateTeeth(h: nat, accepted: bool) returns (ok: bool)
      requires Valid() && HasId(histories, h) && CountTeeth(teeth, h) == 0
      modifies this`teeth, this`nextId
      ensures Valid()
      ensures ok == accepted
      ensures ok ==> teeth == old(teeth) + FreshTeeth(h, old(nextId)) && nextId == old(nextId) + TeethPerChart
      ensures !ok ==> teeth == old(teeth) && nextId == old(nextId)
      ensures patients == old(patients) && histories == old(histories)
      ensures consultations == old(consultations) && procedures == old(procedures)
      ensures toothProcedures == old(toothProcedures) && payments == old(payments)
      ensures appointments == old(appointments)
    {
      ok := accepted;
      if accepted {
        FreshBatchKeys(teeth, h, nextId);
        FreshBatchWellFormed(teeth, h, nextId);
        var batch := FreshTeeth(h, nextId);
        HasIdAppend(teeth, batch);
        ghost var ts0 := teeth;
        teeth := teeth + batch;
        nextId := nextId + TeethPerChart;
        ToothKeysKept(ts0, teeth, toothProcedures, consultations, procedures);
      }
    }

    /** `create_teeth_if_missing`, run after every save of a clinical history:
      * with no teeth it inserts the 32 (swallowing a failure), with 1..31 it
      * only warns, with 32 or more it does nothing. */
    method CreateTeethIfMissing(h: nat, accepted: bool) returns (r: TeethCheck)
      requires Valid() && HasId(histories, h)
      modifies this`teeth, this`nextId
      ensures Valid()
      ensures old(CountTeeth(teeth, h)) == 0 ==> r == (if accepted then Created else CreationFailed)
      ensures 0 < old(CountTeeth(teeth, h)) < TeethPerChart ==> r == PartialWarning(old(CountTeeth(teeth, h)))
      ensures old(CountTeeth(teeth, h)) >= TeethPerChart ==> r == AlreadyComplete
      ensures r == Created ==> teeth == old(teeth) + FreshTeeth(h, old(nextId)) && nextId == old(nextId) + TeethPerChart
      ensures r != Created ==> teeth == old(teeth) && nextId == old(nextId)
      ensures patients == old(patients) && histories == old(histories)
      ensures consultations == old(consultations) && procedures == old(procedures)
      ensures toothProcedures == old(toothProcedures) && payments == old(payments)
      ensures appointments == old(appointments)
    {
      var count := CountTeeth(teeth, h);
      if count == 0 {
        var ok := BulkCreateTeeth(h, accepted);
        r := if ok then Created else CreationFailed;
      } else if count < TeethPerChart {
        r := PartialWarning(count);
      } else {
        r := AlreadyComplete;
      }
    }

    /** `ClinicalHistory.objects.create(patient=p)` for a patient without a
      * history: the INSERT, then `create_teeth_if_missing` on the new history,
      * which either stores its full chart or leaves it without teeth. */
    method NewHistory(p: nat, accepted: bool) returns (h: nat)
      requires Valid() && HasId(patients, p) && HistoryIdOf(histories, p).None?
      modifies this`histories, this`teeth, this`nextId
      ensures Valid()
      ensures h == old(nextId) && histories == old(histories) + [Row(h, History(p, map[]))]
      ensures HistoryIdOf(histories, p) == Some(h)
      ensures old(CountTeeth(teeth, nextId)) == 0
      ensures accepted ==> teeth == old(teeth) + NewChart(h) && nextId == h + 1 + TeethPerChart
      ensures accepted ==> CountTeeth(teeth, h) == TeethPerChart
      ensures !accepted ==> teeth == old(teeth) && nextId == h + 1
      ensures patients == old(patients)
      ensures consultations == old(consultations) && procedures == old(procedures)
      ensures toothProcedures == old(toothProcedures) && payments == old(payments)
      ensures appointments == old(appointments)
    {
      h := InsertHistory(p);
      var check := CreateTeethIfMissing(h, accepted);
      assert HistoryIdOf(histories, p) == Some(h) by {
        HistoryIdOfAppend(old(histories), p, Row(h, History(p, map[])));
      }
      if accepted {
        assert CountTeeth(teeth, h) == TeethPerChart by {
          FreshBatchChart(old(teeth), h, h + 1);
        }
      }
    }

    /** The INSERT of an empty history for patient p, who has none: the fresh
      * key has no teeth yet. */
    method InsertHistory(p: nat) returns (h: nat)
      requires Valid() && HasId(patients, p) && HistoryIdOf(histories, p).None?
      modifies this`histories, this`nextId
      ensures Valid()
      ensures h == old(nextId) && nextId == old(nextId) + 1
      ensures histories == old(histories) + [Row(h, History(p, map[]))]
      ensures HasId(histories, h) && CountTeeth(teeth, h) == 0
      ensures patients == old(patients) && teeth == old(teeth) && consultations == old(consultations)
      ensures procedures == old(procedures) && toothProcedures == old(toothProcedures)
      ensures payments == old(payments) && appointments == old(appointments)
    {
      h := nextId;
      forall i | 0 <= i < |teeth| ensures teeth[i].data.history != h {
        assert HasId(histories, teeth[i].data.history);
      }
      TeethOfNoneOwn(teeth, h);
      AppendFresh(histories, h, History(p, map[]));
      HasIdAppend(histories, [Row(h, History(p, map[]))]);
      ghost var hs0 := histories;
      histories := histories + [Row(h, History(p, map[]))];
      nextId := nextId + 1;
      HistoryKeysKept(hs0, histories, teeth);
      assert HasId(histories, h) by {
        assert histories[|histories| - 1].id == h;
      }
    }
 
    /** The branch of `create_history_and_teeth` for a patient without a
      * history: `ClinicalHistory.objects.create` (whose own handler may add the
      * teeth), then the 32 teeth unless that handler already stored them. The
      * chart ends complete unless both batch inserts are rejected. */
    method ProvisionNewHistory(p: nat, historyBatchAccepted: bool, patientBatchAccepted: bool)
      returns (r: Outcome, h: nat)
      requires Valid() && HasId(patients, p) && HistoryIdOf(histories, p).None?
      modifies this`histories, this`teeth, this`nextId
      ensures Valid()
      ensures h == old(nextId) && histories == old(histories) + [Row(h, History(p, map[]))]
      ensures HistoryIdOf(histories, p) == Some(h)
      ensures old(CountTeeth(teeth, h)) == 0
      ensures r.Pass? <==> historyBatchAccepted || patientBatchAccepted
      ensures r.Pass? ==> teeth == old(teeth) + NewChart(h)
      ensures r.Fail? ==> r.error == BatchRejected && teeth == old(teeth)
      ensures patients == old(patients)
      ensures consultations == old(consultations) && procedures == old(procedures)
      ensures toothProcedures == old(toothProcedures) && payments == old(payments)
      ensures appointments == old(appointments)
    {
      h := NewHistory(p, historyBatchAccepted);
      r := InsertTeethUnlessPresent(h, patientBatchAccepted);
    }

    /** The second step of `create_history_and_teeth`: return when history h
      * already has teeth, otherwise insert the 32 in one atomic batch and
      * re-raise a failure. */
    method InsertTeethUnlessPresent(h: nat, accepted: bool) returns (r: Outcome)
      requires Valid() && HasId(histories, h)
      modifies this`teeth, this`nextId
      ensures Valid()
      ensures old(CountTeeth(teeth, h)) > 0 ==> r == Pass && teeth == old(teeth) && nextId == old(nextId)
      ensures old(CountTeeth(teeth, h)) == 0 && accepted ==>
                r == Pass && teeth == old(teeth) + FreshTeeth(h, old(nextId)) && nextId == old(nextId) + TeethPerChart
      ensures old(CountTeeth(teeth, h)) == 0 && !accepted ==>
                r == Fail(BatchRejected) && teeth == old(teeth) && nextId == old(nextId)
      ensures patients == old(patients) && histories == old(histories)
      ensures consultations == old(consultations) && procedures == old(procedures)
      ensures toothProcedures == old(toothProcedures) && payments == old(payments)
      ensures appointments == old(appointments)
    {
      if CountTeeth(teeth, h) > 0 {
        return Pass;
      }
      var ok := BulkCreateTeeth(h, accepted);
      r := if ok then Pass else Fail(BatchRejected);
    }

    /** `create_history_and_teeth`, run after every save of a patient. On a
      * creation it reuses the patient's history or creates one (which runs
      * `create_teeth_if_missing` first), returns early when that history
      * already has teeth, and otherwise inserts the 32 teeth, re-raising a
      * failure. The ghost result h names the history it worked on. */
    method CreateHistoryAndTeeth(p: nat, created: bool, historyBatchAccepted: bool, patientBatchAccepted: bool)
      returns (r: Outcome, ghost h: nat)
      requires Valid() && HasId(patients, p)
      modifies this`histories, this`teeth, this`nextId
      ensures Valid()
      ensures !created ==> r == Pass && unchanged(this)
      ensures created ==> HistoryIdOf(histories, p) == Some(h)
      ensures created && old(HistoryIdOf(histories, p)).Some? ==>
                h == old(HistoryIdOf(histories, p)).value && histories == old(histories)
      ensures created && old(HistoryIdOf(histories, p)).None? ==>
                h == old(nextId) && histories == old(histories) + [Row(h, History(p, map[]))] &&
                old(CountTeeth(teeth, h)) == 0
      ensures created && old(CountTeeth(teeth, h)) > 0 ==> r == Pass && teeth == old(teeth)
      ensures created && old(HistoryIdOf(histories, p)).Some? && old(CountTeeth(teeth, h)) == 0 && r == Pass ==>
                teeth == old(teeth) + FreshTeeth(h, old(nextId))
      ensures created && old(HistoryIdOf(histories, p)).None? && r == Pass ==>
                teeth == old(teeth) + NewChart(h)
      ensures r.Fail? ==> r.error == BatchRejected && teeth == old(teeth)
      ensures created ==>
                (r.Fail? <==> old(CountTeeth(teeth, h)) == 0 && !patientBatchAccepted &&
                              (old(HistoryIdOf(histories, p)).Some? || !historyBatchAccepted))
      ensures patients == old(patients)
      ensures consultations == old(consultations) && procedures == old(procedures)
      ensures toothProcedures == old(toothProcedures) && payments == old(payments)
      ensures appointments == old(appointments)
    {
      if !created {
        return Pass, 0;
      }
      match HistoryIdOf(histories, p) {
        case Some(existing) =>
          h := existing;
          r := InsertTeethUnlessPresent(existing, patientBatchAccepted);
        case None =>
          r, h := ProvisionNewHistory(p, historyBatchAccepted, patientBatchAccepted);
      }
    }

    // ============================================================== views.py

    /** What `PatientForm.is_valid()` checks: both required names are filled and
      * an identity number, when given, is not already taken. */
    predicate PatientFormValid(p: Patient)
      reads this
    {
      && p.firstName != "" && p.paternalSurname != ""
      && (p.idNumber.Some? ==> forall i :: 0 <= i < |patients| ==> patients[i].data.idNumber != p.idNumber)
    }

    /** `history.save()` after the fields of history h are set to `fields`. */
    method SaveHistoryFields(h: nat, fields: map<HistoryField, string>)
      requires Valid() && HasId(histories, h)
      modifies this`histories
      ensures Valid()
      ensures histories == Replace(old(histories), h, History(old(Lookup(histories, h)).value.patient, fields))
      ensures forall p :: HistoryIdOf(histories, p) == old(HistoryIdOf(histories, p))
      ensures Lookup(histories, h) == Some(History(old(Lookup(histories, h)).value.patient, fields))
      ensures patients == old(patients) && teeth == old(teeth) && consultations == old(consultations)
      ensures procedures == old(procedures) && toothProcedures == old(toothProcedures)
      ensures payments == old(payments) && appointments == old(appointments) && nextId == old(nextId)
    {
      var saved := History(Lookup(histories, h).value.patient, fields);
      ReplaceHistoryFields(histories, h, fields);
      ReplaceKeepsIdsUnique(histories, h, saved, nextId);
      LookupReplace(histories, h, saved, h);
      ghost var hs0 := histories;
      histories := Replace(histories, h, saved);
      forall i | 0 <= i < |histories| ensures HasId(patients, histories[i].data.patient) {
        assert histories[i].data.patient == hs0[i].data.patient;
      }
      HistoryKeysKept(hs0, histories, teeth);
    }

    /** `patient_create` on POST. Saving the patient runs the provisioning
      * handlers; a failure they re-raise ends the request with the patient (and
      * its history) already stored. Otherwise the filled values of the history
      * form are copied onto the new history, whose save runs
      * `create_teeth_if_missing` once more. */
    method PatientCreate(p: Patient, historyData: seq<Views.FormEntry>,
                         historyBatchAccepted: bool, patientBatchAccepted: bool, resaveBatchAccepted: bool)
      returns (r: Result<nat>)
      requires Valid()
      modifies this`patients, this`histories, this`teeth, this`nextId
      ensures Valid()
      ensures !old(PatientFormValid(p)) ==> r == Err(InvalidForm) && unchanged(this)
      ensures old(PatientFormValid(p)) ==>
                && patients == old(patients) + [Row(old(nextId), p)]
                && HistoryIdOf(histories, old(nextId)) == Some(old(nextId) + 1)
      ensures r.Ok? <==> old(PatientFormValid(p)) && (historyBatchAccepted || patientBatchAccepted)
      ensures r.Ok? ==>
                && r.value == old(nextId)
                && FullHealthyChart(TeethOf(teeth, r.value + 1))
                && Lookup(histories, r.value + 1) == Some(History(r.value, Views.MergedFields(map[], historyData)))
      ensures r.Ok? ==> teeth == old(teeth) + NewChart(old(nextId) + 1)
      ensures r.Err? && old(PatientFormValid(p)) ==>
                r.error == BatchRejected && teeth == old(teeth) && CountTeeth(teeth, old(nextId) + 1) == 0
      ensures old(PatientFormValid(p)) ==>
                histories == old(histories) + [Row(old(nextId) + 1, History(old(nextId), if r.Ok? then Views.MergedFields(map[], historyData) else map[]))]
      ensures consultations == old(consultations) && procedures == old(procedures)
      ensures toothProcedures == old(toothProcedures) && payments == old(payments)
      ensures appointments == old(appointments)
    {
      if !PatientFormValid(p) {
        return Err(InvalidForm);
      }
      r := SaveNewPatient(p, historyData, historyBatchAccepted, patientBatchAccepted, resaveBatchAccepted);
    }

    /** `patient_create` once both forms are valid: the patient is inserted,
      * then provisioned and given the history form's values. */
    method SaveNewPatient(p: Patient, historyData: seq<Views.FormEntry>,
                          historyBatchAccepted: bool, patientBatchAccepted: bool, resaveBatchAccepted: bool)
      returns (r: Result<nat>)
      requires Valid() && PatientFormValid(p)
      modifies this`patients, this`histories, this`teeth, this`nextId
      ensures Valid()
      ensures patients == old(patients) + [Row(old(nextId), p)]
      ensures HistoryIdOf(histories, old(nextId)) == Some(old(nextId) + 1)
      ensures r.Ok? <==> historyBatchAccepted || patientBatchAccepted
      ensures r.Ok? ==>
                && r.value == old(nextId)
                && FullHealthyChart(TeethOf(teeth, r.value + 1))
                && Lookup(histories, r.value + 1) == Some(History(r.value, Views.MergedFields(map[], historyData)))
      ensures r.Ok? ==> teeth == old(teeth) + NewChart(old(nextId) + 1)
      ensures r.Err? ==> r.error == BatchRejected && teeth == old(teeth) && CountTeeth(teeth, old(nextId) + 1) == 0
      ensures histories == old(histories) + [Row(old(nextId) + 1, History(old(nextId), if r.Ok? then Views.MergedFields(map[], historyData) else map[]))]
      ensures consultations == old(consultations) && procedures == old(procedures)
      ensures toothProcedures == old(toothProcedures) && payments == old(payments)
      ensures appointments == old(appointments)
    {
      var pid := CreatePatientRow(p);
      r := ProvisionAndMerge(pid, historyData, historyBatchAccepted, patientBatchAccepted, resaveBatchAccepted);
    }

    /** `patient_create` once both forms are valid, from the moment patient pid
      * is stored: the signal handlers run, then the history form is merged into
      * the history they created. */
    method ProvisionAndMerge(pid: nat, historyData: seq<Views.FormEntry>,
                             historyBatchAccepted: bool, patientBatchAccepted: bool, resaveBatchAccepted: bool)
      returns (r: Result<nat>)
      requires Valid() && HasId(patients, pid) && HistoryIdOf(histories, pid).None?
      modifies this`histories, this`teeth, this`nextId
      ensures Valid()
      ensures HistoryIdOf(histories, pid) == Some(old(nextId))
      ensures r.Ok? <==> historyBatchAccepted || patientBatchAccepted
      ensures r.Ok? ==>
                && r.value == pid
                && teeth == old(teeth) + NewChart(old(nextId))
                && FullHealthyChart(TeethOf(teeth, old(nextId)))
                && Lookup(histories, old(nextId)) == Some(History(pid, Views.MergedFields(map[], historyData)))
      ensures r.Err? ==> r.error == BatchRejected && teeth == old(teeth) && CountTeeth(teeth, old(nextId)) == 0
      ensures histories == old(histories) + [Row(old(nextId), History(pid, if r.Ok? then Views.MergedFields(map[], historyData) else map[]))]
      ensures patients == old(patients) && consultations == old(consultations) && procedures == old(procedures)
      ensures toothProcedures == old(toothProcedures) && payments == old(payments)
      ensures appointments == old(appointments)
    {
      var h := nextId;
      ghost var hs0 := histories;
      var outcome := ProvisionNewPatient(pid, historyBatchAccepted, patientBatchAccepted);
      if outcome.Fail? {
        return Err(BatchRejected);
      }
      assert histories[|histories| - 1] == Row(h, History(pid, map[]));
      assert Lookup(histories, h) == Some(History(pid, map[]));
      MergeHistoryForm(h, historyData, resaveBatchAccepted);
      ReplaceLast(hs0, h, History(pid, map[]), History(pid, Views.MergedFields(map[], historyData)));
      r := Ok(pid);
    }

    /** The provisioning handlers on the creation of patient pid, who has no
      * history yet: one history is created and, unless both batch inserts are
      * rejected, it ends with exactly the 32 healthy teeth. */
    method ProvisionNewPatient(pid: nat, historyBatchAccepted: bool, patientBatchAccepted: bool) returns (outcome: Outcome)
      requires Valid() && HasId(patients, pid) && HistoryIdOf(histories, pid).None?
      modifies this`histories, this`teeth, this`nextId
      ensures Valid()
      ensures histories == old(histories) + [Row(old(nextId), History(pid, map[]))]
      ensures HistoryIdOf(histories, pid) == Some(old(nextId))
      ensures outcome.Pass? <==> historyBatchAccepted || patientBatchAccepted
      ensures outcome.Pass? ==> teeth == old(teeth) + NewChart(old(nextId))
      ensures outcome.Pass? ==> FullHealthyChart(TeethOf(teeth, old(nextId)))
      ensures outcome.Fail? ==> outcome.error == BatchRejected && teeth == old(teeth) && CountTeeth(teeth, old(nextId)) == 0
      ensures patients == old(patients) && consultations == old(consultations) && procedures == old(procedures)
      ensures toothProcedures == old(toothProcedures) && payments == old(payments)
      ensures appointments == old(appointments)
    {
      ghost var teeth0, h0 := teeth, nextId;
      ghost var h;
      outcome, h := CreateHistoryAndTeeth(pid, true, historyBatchAccepted, patientBatchAccepted);
      if outcome.Pass? {
        assert h == h0 && CountTeeth(teeth0, h0) == 0 && teeth == teeth0 + NewChart(h0);
        FreshBatchChart(teeth0, h0, h0 + 1);
      }
    }

    /** The `hasattr(patient, 'history')` branch of `patient_create`: copy the
      * filled form values onto history h and save it, which runs
      * `create_teeth_if_missing` on a chart that is already complete. */
    method MergeHistoryForm(h: nat, historyData: seq<Views.FormEntry>, resaveBatchAccepted: bool)
      requires Valid() && HasId(histories, h) && FullHealthyChart(TeethOf(teeth, h))
      modifies this`histories, this`teeth, this`nextId
      ensures Valid()
      ensures Lookup(histories, h) == Some(History(old(Lookup(histories, h)).value.patient,
                                                   Views.MergedFields(old(Lookup(histories, h)).value.fields, historyData)))
      ensures histories == Replace(old(histories), h, History(old(Lookup(histories, h)).value.patient,
                                                              Views.MergedFields(old(Lookup(histories, h)).value.fields, historyData)))
      ensures forall p :: HistoryIdOf(histories, p) == old(HistoryIdOf(histories, p))
      ensures |histories| == old(|histories|)
      ensures patients == old(patients) && teeth == old(teeth) && consultations == old(consultations)
      ensures procedures == old(procedures) && toothProcedures == old(toothProcedures)
      ensures payments == old(payments) && appointments == old(appointments) && nextId == old(nextId)
    {
      var history := Lookup(histories, h).value;
      var merged := Views.MergeCleanedData(history.fields, historyData);
      SaveHistoryFields(h, merged);
      var check := CreateTeethIfMissing(h, resaveBatchAccepted);
      assert check == AlreadyComplete;
    }

    /** `patient_form.save()` up to the insert itself. */
    method CreatePatientRow(p: Patient) returns (pid: nat)
      requires Valid() && PatientFormValid(p)
      modifies this`patients, this`nextId
      ensures Valid()
      ensures pid == old(nextId) && nextId == old(nextId) + 1
      ensures patients == old(patients) + [Row(pid, p)]
      ensures HistoryIdOf(histories, pid).None? && HasId(patients, pid)
      ensures histories == old(histories) && teeth == old(teeth) && consultations == old(consultations)
      ensures procedures == old(procedures) && toothProcedures == old(toothProcedures)
      ensures payments == old(payments) && appointments == old(appointments)
    {
      pid := nextId;
      forall i | 0 <= i < |histories| ensures histories[i].data.patient != pid {
        assert HasId(patients, histories[i].data.patient);
      }
      var row := Row(pid, p);
      AppendFresh(patients, pid, p);
      HasIdAppend(patients, [row]);
      ghost var ps0 := patients;
      patients := patients + [row];
      nextId := nextId + 1;
      PatientKeysKept(ps0, patients, histories, consultations, appointments);
      assert patients[|patients| - 1] == row;
    }

    // ============================================================ billing

    /** `ToothProcedure.save` of a new row for consultation cid: the price
      * charged is the given one, or the catalog's base price when that is falsy. */
    method SaveToothProcedure(cid: nat, tooth: nat, proc: nat, given: Option<Cents>) returns (id: nat)
      requires Valid() && HasId(consultations, cid) && HasId(teeth, tooth) && HasId(procedures, proc)
      modifies this
      ensures Valid()
      ensures patients == old(patients) && histories == old(histories) && teeth == old(teeth)
      ensures consultations == old(consultations) && procedures == old(procedures)
      ensures payments == old(payments) && appointments == old(appointments)
      ensures id == old(nextId) && nextId == old(nextId) + 1
      ensures toothProcedures == old(toothProcedures) +
                [Row(id, ToothProcedure(cid, tooth, proc, ChargedPrice(given, Lookup(procedures, proc).value.basePrice)))]
    {
      var base := Lookup(procedures, proc).value.basePrice;
      var tp := ToothProcedure(cid, tooth, proc, ChargedPrice(given, base));
      id := nextId;
      AppendFresh(toothProcedures, id, tp);
      toothProcedures := toothProcedures + [Row(id, tp)];
      nextId := nextId + 1;
    }

    /** `consultation.total_cost = consultation.calculate_total_cost()` followed
      * by saving the consultation: only its stored total changes. */
    method RecomputeTotalCost(cid: nat)
      requires Valid() && HasId(consultations, cid)
      modifies this
      ensures Valid()
      ensures consultations == Recomputed(old(consultations), toothProcedures, cid)
      ensures CostConsistent(cid)
      ensures forall c :: c != cid ==> Lookup(consultations, c) == old(Lookup(consultations, c))
      ensures patients == old(patients) && histories == old(histories) && teeth == old(teeth)
      ensures procedures == old(procedures) && toothProcedures == old(toothProcedures)
      ensures payments == old(payments) && appointments == old(appointments) && nextId == old(nextId)
    {
      var cons := Lookup(consultations, cid).value;
      var updated := cons.(totalCost := TotalCharged(toothProcedures, cid));
      ReplaceKeepsIdsUnique(consultations, cid, updated, nextId);
      forall c ensures Lookup(Replace(consultations, cid, updated), c)
                       == if c == cid then Some(updated) else Lookup(consultations, c) {
        LookupReplace(consultations, cid, updated, c);
      }
      ghost var cs0 := consultations;
      consultations := Replace(consultations, cid, updated);
      ConsultationKeysKept(cs0, consultations, toothProcedures, teeth, procedures, payments, appointments, patients);
    }

    /** `tooth.status = s; tooth.save()`. */
    method SetToothStatus(tooth: nat, s: ToothStatus)
      requires Valid()
      modifies this
      ensures Valid()
      ensures teeth == WithStatus(old(teeth), tooth, s)
      ensures forall h :: CountTeeth(teeth, h) == old(CountTeeth(teeth, h))
      ensures patients == old(patients) && histories == old(histories) && consultations == old(consultations)
      ensures procedures == old(procedures) && toothProcedures == old(toothProcedures)
      ensures payments == old(payments) && appointments == old(appointments) && nextId == old(nextId)
    {
      WithStatusKeepsChart(teeth, tooth, s);
      ghost var ts0 := teeth;
      teeth := WithStatus(teeth, tooth, s);
      ToothKeysKept(ts0, teeth, toothProcedures, consultations, procedures);
    }

    /** What `ToothProcedureForm(request.POST, patient=...).is_valid()` checks for
      * consultation cid: the tooth is among the choices offered for its patient,
      * the procedure is in the catalog and a price is given. */
    predicate ToothProcedureFormValid(cid: nat, tooth: nat, proc: nat, price: Option<Cents>)
      reads this
    {
      match Lookup(consultations, cid)
      case None => false
      case Some(cons) =>
        Views.ToothSelectable(histories, teeth, cons.patient, tooth) && HasId(procedures, proc) && price.Some?
    }

    /** `tooth_procedure_create` on POST: store the tooth procedure, bring the
      * consultation's total cost up to date and set the tooth's status from the
      * procedure's name. */
    method AddToothProcedure(cid: nat, tooth: nat, proc: nat, price: Option<Cents>) returns (r: Result<nat>)
      requires Valid()
      modifies this
      ensures Valid()
      ensures !old(HasId(consultations, cid)) ==> r == Err(NotFound)
      ensures old(HasId(consultations, cid)) ==>
                (r.Ok? <==> old(ToothProcedureFormValid(cid, tooth, proc, price)))
      ensures r.Err? ==> (r.error == NotFound || r.error == InvalidForm) && unchanged(this)
      ensures r.Ok? ==>
                var charged := ChargedPrice(price, old(Lookup(procedures, proc)).value.basePrice);
                && r.value == old(nextId)
                && toothProcedures == old(toothProcedures) + [Row(r.value, ToothProcedure(cid, tooth, proc, charged))]
                && TotalCharged(toothProcedures, cid) == old(TotalCharged(toothProcedures, cid)) + charged
                && old(HasId(consultations, cid))
                && consultations == Recomputed(old(consultations), toothProcedures, cid)
                && CostConsistent(cid)
      ensures r.Ok? ==>
                teeth == WithStatus(old(teeth), tooth, Views.StatusAfterProcedure(old(Lookup(procedures, proc)).value.name))
      ensures r.Ok? ==> forall c :: c != cid ==> Lookup(consultations, c) == old(Lookup(consultations, c))
      ensures forall h :: CountTeeth(teeth, h) == old(CountTeeth(teeth, h))
      ensures old(AllCostsConsistent()) ==> AllCostsConsistent()
      ensures patients == old(patients) && histories == old(histories) && procedures == old(procedures)
      ensures payments == old(payments) && appointments == old(appointments)
    {
      if Lookup(consultations, cid).None? {
        return Err(NotFound);
      }
      if !ToothProcedureFormValid(cid, tooth, proc, price) {
        return Err(InvalidForm);
      }
      ghost var consistent := AllCostsConsistent();
      ghost var tps0, cons0 := toothProcedures, consultations;
      var procedure := Lookup(procedures, proc).value;
      var id := SaveToothProcedure(cid, tooth, proc, price);
      ChargeMovesOnlyItsConsultation(tps0, toothProcedures[|toothProcedures| - 1]);
      RecomputeTotalCost(cid);
      if consistent {
        RecomputedMatches(cons0, tps0, toothProcedures, cid);
      }
      SetToothStatus(tooth, Views.StatusAfterProcedure(procedure.name));
      r := Ok(id);
    }

    /** `tooth_procedure_delete` on POST: remove the row and bring its
      * consultation's total cost down to the remaining charges. The tooth's
      * status is left as the procedure set it. */
    method DeleteToothProcedure(id: nat) returns (r: Outcome)
      requires Valid()
      modifies this
      ensures Valid()
      ensures !old(HasId(toothProcedures, id)) ==> r == Fail(NotFound) && unchanged(this)
      ensures old(HasId(toothProcedures, id)) ==>
                var gone := old(Lookup(toothProcedures, id)).value;
                && r == Pass
                && toothProcedures == Without(old(toothProcedures), id)
                && TotalCharged(toothProcedures, gone.consultation)
                   == old(TotalCharged(toothProcedures, gone.consultation)) - gone.priceCharged
                && old(HasId(consultations, gone.consultation))
                && consultations == Recomputed(old(consultations), toothProcedures, gone.consultation)
                && CostConsistent(gone.consultation)
                && forall c :: c != gone.consultation ==> Lookup(consultations, c) == old(Lookup(consultations, c))
      ensures old(AllCostsConsistent()) ==> AllCostsConsistent()
      ensures patients == old(patients) && histories == old(histories) && teeth == old(teeth)
      ensures procedures == old(procedures) && payments == old(payments) && appointments == old(appointments)
    {
      var k := IndexOf(toothProcedures, id);
      if k.None? {
        return Fail(NotFound);
      }
      var i := k.value;
      var gone := toothProcedures[i].data;
      assert Lookup(toothProcedures, id) == Some(gone);
      ghost var consistent := AllCostsConsistent();
      ghost var tps0 := toothProcedures;
      RemoveToothProcedureRow(id);
      UnchargeMovesOnlyItsConsultation(tps0, i);
      ghost var cons0 := consultations;
      RecomputeTotalCost(gone.consultation);
      if consistent {
        RecomputedMatches(cons0, tps0, toothProcedures, gone.consultation);
      }
      r := Pass;
    }

    /** The DELETE of tooth procedure `id`: no other table refers to it. */
    method RemoveToothProcedureRow(id: nat)
      requires Valid()
      modifies this
      ensures Valid()
      ensures toothProcedures == Without(old(toothProcedures), id)
      ensures patients == old(patients) && histories == old(histories) && teeth == old(teeth)
      ensures consultations == old(consultations) && procedures == old(procedures)
      ensures payments == old(payments) && appointments == old(appointments) && nextId == old(nextId)
    {
      ghost var tps0 := toothProcedures;
      WithoutKeepsIdsUnique(toothProcedures, id);
      WithoutKeepsIdsBelow(toothProcedures, id, nextId);
      toothProcedures := Without(toothProcedures, id);
      forall j | 0 <= j < |toothProcedures|
        ensures HasId(consultations, toothProcedures[j].data.consultation)
        ensures HasId(teeth, toothProcedures[j].data.tooth)
        ensures HasId(procedures, toothProcedures[j].data.procedure)
      {
        assert toothProcedures[j] in tps0;
      }
    }

    /** `payment_create` on POST: record a payment of the given amount for
      * consultation cid, dated `today`. The stored total cost is not touched. */
    method AddPayment(cid: nat, amount: Option<Cents>, kind: PaymentMethod, today: Date) returns (r: Result<nat>)
      requires Valid()
      modifies this
      ensures Valid()
      ensures !old(HasId(consultations, cid)) ==> r == Err(NotFound) && unchanged(this)
      ensures old(HasId(consultations, cid)) && amount.None? ==> r == Err(InvalidForm) && unchanged(this)
      ensures r.Ok? <==> old(HasId(consultations, cid)) && amount.Some?
      ensures r.Ok? ==>
                && r.value == old(nextId)
                && payments == old(payments) + [Row(r.value, Payment(cid, amount.value, kind, today))]
                && TotalPaid(payments, cid) == old(TotalPaid(payments, cid)) + amount.value
                && forall d :: d != cid ==> TotalPaid(payments, d) == old(TotalPaid(payments, d))
      ensures consultations == old(consultations) && toothProcedures == old(toothProcedures)
      ensures patients == old(patients) && histories == old(histories) && teeth == old(teeth)
      ensures procedures == old(procedures) && appointments == old(appointments)
    {
      if !HasId(consultations, cid) {
        return Err(NotFound);
      }
      if amount.None? {
        return Err(InvalidForm);
      }
      var row := Row(nextId, Payment(cid, amount.value, kind, today));
      forall d ensures TotalPaid(payments + [row], d)
                       == TotalPaid(payments, d) + (if d == cid then amount.value else 0) {
        TotalPaidAppend(payments, [row], d);
      }
      AppendFresh(payments, nextId, row.data);
      payments := payments + [row];
      nextId := nextId + 1;
      r := Ok(row.id);
    }

    /** `payment_delete` on POST: remove the payment; the stored total cost of
      * its consultation is not touched, so only the balance moves. */
    method DeletePayment(id: nat) returns (r: Outcome)
      requires Valid()
      modifies this
      ensures Valid()
      ensures !old(HasId(payments, id)) ==> r == Fail(NotFound) && unchanged(this)
      ensures old(HasId(payments, id)) ==>
                var gone := old(Lookup(payments, id)).value;
                && r == Pass
                && payments == Without(old(payments), id)
                && TotalPaid(payments, gone.consultation) == old(TotalPaid(payments, gone.consultation)) - gone.amount
                && forall d :: d != gone.consultation ==> TotalPaid(payments, d) == old(TotalPaid(payments, d))
      ensures consultations == old(consultations) && toothProcedures == old(toothProcedures)
      ensures patients == old(patients) && histories == old(histories) && teeth == old(teeth)
      ensures procedures == old(procedures) && appointments == old(appointments) && nextId == old(nextId)
    {
      var k := IndexOf(payments, id);
      if k.None? {
        return Fail(NotFound);
      }
      var i := k.value;
      assert Lookup(payments, id) == Some(payments[i].data);
      ghost var ps0 := payments;
      forall d ensures TotalPaid(Without(ps0, id), d)
                       == TotalPaid(ps0, d) - (if ps0[i].data.consultation == d then ps0[i].data.amount else 0) {
        TotalPaidWithout(ps0, i, d);
      }
      WithoutKeepsIdsUnique(payments, id);
      WithoutKeepsIdsBelow(payments, id, nextId);
      payments := Without(payments, id);
      forall j | 0 <= j < |payments| ensures HasId(consultations, payments[j].data.consultation) {
        assert payments[j] in ps0;
      }
      r := Pass;
    }

    /** `procedure_create` on POST: a catalog entry needs a name not already in
      * the catalog and a base price. */
    method CreateProcedure(name: string, basePrice: Option<Cents>) returns (r: Result<nat>)
      requires Valid()
      modifies this
      ensures Valid()
      ensures r.Err? ==> r.error == InvalidForm && unchanged(this)
      ensures r.Ok? <==> name != "" && basePrice.Some? &&
                         old(forall i :: 0 <= i < |procedures| ==> procedures[i].data.name != name)
      ensures r.Ok? ==> r.value == old(nextId) &&
                        procedures == old(procedures) + [Row(r.value, Procedure(name, basePrice.value))]
      ensures patients == old(patients) && histories == old(histories) && teeth == old(teeth)
      ensures consultations == old(consultations) && toothProcedures == old(toothProcedures)
      ensures payments == old(payments) && appointments == old(appointments)
    {
      if name == "" || basePrice.None? || exists i :: 0 <= i < |procedures| && procedures[i].data.name == name {
        return Err(InvalidForm);
      }
      var row := Row(nextId, Procedure(name, basePrice.value));
      AppendFresh(procedures, nextId, row.data);
      HasIdAppend(procedures, [row]);
      procedures := procedures + [row];
      nextId := nextId + 1;
      r := Ok(row.id);
    }

    /** `procedure_delete` on POST: the catalog entry goes unless a tooth
      * procedure still refers to it, in which case PROTECT refuses. */
    method DeleteProcedure(id: nat) returns (r: Outcome)
      requires Valid()
      modifies this
      ensures Valid()
      ensures !old(HasId(procedures, id)) ==> r == Fail(NotFound) && unchanged(this)
      ensures old(HasId(procedures, id)) && old(ProcedureInUse(toothProcedures, id)) ==>
                r == Fail(Protected) && unchanged(this)
      ensures r == Pass <==> old(HasId(procedures, id)) && !old(ProcedureInUse(toothProcedures, id))
      ensures r == Pass ==> procedures == Without(old(procedures), id)
      ensures patients == old(patients) && histories == old(histories) && teeth == old(teeth)
      ensures consultations == old(consultations) && toothProcedures == old(toothProcedures)
      ensures payments == old(payments) && appointments == old(appointments) && nextId == old(nextId)
    {
      if !HasId(procedures, id) {
        return Fail(NotFound);
      }
      if exists i :: 0 <= i < |toothProcedures| && toothProcedures[i].data.procedure == id {
        return Fail(Protected);
      }
      ghost var procs0 := procedures;
      WithoutKeepsIdsUnique(procedures, id);
      WithoutKeepsIdsBelow(procedures, id, nextId);
      WithoutKeepsNamesUnique(procedures, id);
      procedures := Without(procedures, id);
      r := Pass;
    }

    /** `consultation_create` on POST for patient `patient`: the consultation
      * is stored with the requesting user and a total cost of 0.00. */
    method CreateConsultation(patient: nat, reason: string, requester: nat) returns (r: Result<nat>)
      requires Valid()
      modifies this
      ensures Valid()
      ensures !old(HasId(patients, patient)) ==> r == Err(NotFound) && unchanged(this)
      ensures old(HasId(patients, patient)) && reason == "" ==> r == Err(InvalidForm) && unchanged(this)
      ensures r.Ok? <==> old(HasId(patients, patient)) && reason != ""
      ensures r.Ok? ==>
                && r.value == old(nextId)
                && consultations == old(consultations) + [Row(r.value, Consultation(patient, Some(requester), reason, 0))]
                && TotalCharged(toothProcedures, r.value) == 0
                && CostConsistent(r.value)
      ensures old(AllCostsConsistent()) ==> AllCostsConsistent()
      ensures patients == old(patients) && histories == old(histories) && teeth == old(teeth)
      ensures procedures == old(procedures) && toothProcedures == old(toothProcedures)
      ensures payments == old(payments) && appointments == old(appointments)
    {
      if !HasId(patients, patient) {
        return Err(NotFound);
      }
      if reason == "" {
        return Err(InvalidForm);
      }
      var id := InsertConsultation(Consultation(patient, Some(requester), reason, 0));
      r := Ok(id);
    }

    /** The INSERT of a new consultation c, which starts with a total of 0.00:
      * no charge refers to the fresh key, so every stored total stays right. */
    method InsertConsultation(c: Consultation) returns (id: nat)
      requires Valid() && HasId(patients, c.patient) && c.totalCost == 0
      modifies this
      ensures Valid()
      ensures id == old(nextId) && nextId == old(nextId) + 1
      ensures consultations == old(consultations) + [Row(id, c)]
      ensures Lookup(consultations, id) == Some(c) && TotalCharged(toothProcedures, id) == 0
      ensures old(AllCostsConsistent()) ==> AllCostsConsistent()
      ensures patients == old(patients) && histories == old(histories) && teeth == old(teeth)
      ensures procedures == old(procedures) && toothProcedures == old(toothProcedures)
      ensures payments == old(payments) && appointments == old(appointments)
    {
      id := nextId;
      NewConsultationUncharged(id);
      var row := Row(id, c);
      assert Lookup(consultations + [row], id) == Some(c) by {
        AppendFresh(consultations, id, c);
        assert (consultations + [row])[|consultations|] == row;
      }
      if AllCostsConsistent() {
        CostsMatchAppend(consultations, toothProcedures, row);
      }
      AppendConsultationRow(row);
    }

    /** The INSERT itself: the row with the next key joins the table. */
    method AppendConsultationRow(row: Row<Consultation>)
      requires Valid() && row.id == nextId && HasId(patients, row.data.patient)
      modifies this
      ensures Valid()
      ensures consultations == old(consultations) + [row] && nextId == old(nextId) + 1
      ensures patients == old(patients) && histories == old(histories) && teeth == old(teeth)
      ensures procedures == old(procedures) && toothProcedures == old(toothProcedures)
      ensures payments == old(payments) && appointments == old(appointments)
    {
      AppendFresh(consultations, row.id, row.data);
      HasIdAppend(consultations, [row]);
      ghost var cs0 := consultations;
      consultations := consultations + [row];
      nextId := nextId + 1;
      ConsultationKeysKept(cs0, consultations, toothProcedures, teeth, procedures, payments, appointments, patients);
    }

    /** The UPDATE of consultation id to c, keeping the stored total, so the
      * totals stay as consistent as they were. */
    method UpdateConsultation(id: nat, c: Consultation)
      requires Valid() && HasId(consultations, id) && HasId(patients, c.patient)
      requires c.totalCost == Lookup(consultations, id).value.totalCost
      modifies this
      ensures Valid()
      ensures consultations == Replace(old(consultations), id, c)
      ensures Lookup(consultations, id) == Some(c)
      ensures old(AllCostsConsistent()) ==> AllCostsConsistent()
      ensures nextId == old(nextId)
      ensures patients == old(patients) && histories == old(histories) && teeth == old(teeth)
      ensures procedures == old(procedures) && toothProcedures == old(toothProcedures)
      ensures payments == old(payments) && appointments == old(appointments)
    {
      LookupReplace(consultations, id, c, id);
      if AllCostsConsistent() {
        CostsMatchReplace(consultations, toothProcedures, id, c);
      }
      ReplaceConsultationRow(id, c);
    }

    /** The UPDATE itself: row id of the table now holds c. */
    method ReplaceConsultationRow(id: nat, c: Consultation)
      requires Valid() && HasId(patients, c.patient)
      modifies this
      ensures Valid()
      ensures consultations == Replace(old(consultations), id, c)
      ensures nextId == old(nextId)
      ensures patients == old(patients) && histories == old(histories) && teeth == old(teeth)
      ensures procedures == old(procedures) && toothProcedures == old(toothProcedures)
      ensures payments == old(payments) && appointments == old(appointments)
    {
      ghost var cs0 := consultations;
      ReplaceKeepsIdsUnique(consultations, id, c, nextId);
      consultations := Replace(consultations, id, c);
      ConsultationKeysKept(cs0, consultations, toothProcedures, teeth, procedures, payments, appointments, patients);
    }

    /** No stored tooth procedure belongs to a consultation key not yet handed out. */
    lemma NewConsultationUncharged(id: nat)
      requires Valid() && id >= nextId
      ensures TotalCharged(toothProcedures, id) == 0
    {
      forall i | 0 <= i < |toothProcedures| ensures toothProcedures[i].data.consultation != id {
        var c := toothProcedures[i].data.consultation;
        assert HasId(consultations, c);
      }
    }

    /** Deleting a consultation in the admin: refused by PROTECT while it has
      * payments; otherwise its tooth procedures are deleted with it (CASCADE)
      * and appointments pointing at it lose the link (SET_NULL). */
    method DeleteConsultation(id: nat) returns (r: Outcome)
      requires Valid()
      modifies this
      ensures Valid()
      ensures !old(HasId(consultations, id)) ==> r == Fail(NotFound) && unchanged(this)
      ensures old(HasId(consultations, id)) && old(HasPayments(payments, id)) ==>
                r == Fail(Protected) && unchanged(this)
      ensures r == Pass <==> old(HasId(consultations, id)) && !old(HasPayments(payments, id))
      ensures r == Pass ==>
                && consultations == Without(old(consultations), id)
                && toothProcedures == DropConsultation(old(toothProcedures), id)
                && appointments == UnlinkConsultation(old(appointments), id)
      ensures old(AllCostsConsistent()) ==> AllCostsConsistent()
      ensures patients == old(patients) && histories == old(histories) && teeth == old(teeth)
      ensures procedures == old(procedures) && payments == old(payments) && nextId == old(nextId)
    {
      if !HasId(consultations, id) {
        return Fail(NotFound);
      }
      if exists i :: 0 <= i < |payments| && payments[i].data.consultation == id {
        return Fail(Protected);
      }
      ghost var consistent := AllCostsConsistent();
      ghost var cs0, tps0 := consultations, toothProcedures;
      DropToothProceduresOf(id);
      UnlinkAppointments(id);
      RemoveConsultationRow(id);
      if consistent {
        CostsMatchWithout(cs0, tps0, toothProcedures, id);
      }
      r := Pass;
    }

    /** The CASCADE step of deleting consultation id. */
    method DropToothProceduresOf(id: nat)
      requires Valid()
      modifies this
      ensures Valid()
      ensures toothProcedures == DropConsultation(old(toothProcedures), id)
      ensures forall i :: 0 <= i < |toothProcedures| ==> toothProcedures[i].data.consultation != id
      ensures forall c :: c != id ==> TotalCharged(toothProcedures, c) == old(TotalCharged(toothProcedures, c))
      ensures patients == old(patients) && histories == old(histories) && teeth == old(teeth)
      ensures consultations == old(consultations) && procedures == old(procedures)
      ensures payments == old(payments) && appointments == old(appointments) && nextId == old(nextId)
    {
      ghost var tps0 := toothProcedures;
      KeepKeepsIdsUnique(toothProcedures, (tp: ToothProcedure) => tp.consultation != id);
      KeepKeepsIdsBelow(toothProcedures, (tp: ToothProcedure) => tp.consultation != id, nextId);
      forall c | c != id ensures TotalCharged(DropConsultation(tps0, id), c) == TotalCharged(tps0, c) {
        TotalChargedDrop(tps0, id, c);
      }
      toothProcedures := DropConsultation(toothProcedures, id);
      forall j | 0 <= j < |toothProcedures|
        ensures toothProcedures[j].data.consultation != id
        ensures HasId(consultations, toothProcedures[j].data.consultation)
        ensures HasId(teeth, toothProcedures[j].data.tooth)
        ensures HasId(procedures, toothProcedures[j].data.procedure)
      {
        assert toothProcedures[j] in tps0;
      }
    }

    /** The SET_NULL step of deleting consultation id. */
    method UnlinkAppointments(id: nat)
      requires Valid()
      modifies this
      ensures Valid()
      ensures appointments == UnlinkConsultation(old(appointments), id)
      ensures forall i :: 0 <= i < |appointments| ==> appointments[i].data.consultation != Some(id)
      ensures patients == old(patients) && histories == old(histories) && teeth == old(teeth)
      ensures consultations == old(consultations) && procedures == old(procedures)
      ensures toothProcedures == old(toothProcedures) && payments == old(payments) && nextId == old(nextId)
    {
      ghost var as0 := appointments;
      appointments := UnlinkConsultation(appointments, id);
      assert forall i :: 0 <= i < |appointments| ==>
               appointments[i].data.date == as0[i].data.date && appointments[i].data.startTime == as0[i].data.startTime &&
               appointments[i].data.user == as0[i].data.user;
    }

    /** The final DELETE of consultation id, once nothing refers to it any more. */
    method RemoveConsultationRow(id: nat)
      requires Valid()
      requires forall i :: 0 <= i < |toothProcedures| ==> toothProcedures[i].data.consultation != id
      requires forall i :: 0 <= i < |payments| ==> payments[i].data.consultation != id
      requires forall i :: 0 <= i < |appointments| ==> appointments[i].data.consultation != Some(id)
      modifies this
      ensures Valid()
      ensures consultations == Without(old(consultations), id)
      ensures patients == old(patients) && histories == old(histories) && teeth == old(teeth)
      ensures procedures == old(procedures) && toothProcedures == old(toothProcedures)
      ensures payments == old(payments) && appointments == old(appointments) && nextId == old(nextId)
    {
      WithoutKeepsIdsUnique(consultations, id);
      WithoutKeepsIdsBelow(consultations, id, nextId);
      consultations := Without(consultations, id);
    }

    // ============================================================== admin.py

    /** `ConsultationAdmin.save_formset`, after the inline's rows are saved:
      * the total cost is recomputed for the tooth-procedure inline only. */
    method SaveFormset(cid: nat, model: InlineModel)
      requires Valid() && HasId(consultations, cid)
      modifies this
      ensures Valid()
      ensures model == PaymentInline ==> unchanged(this)
      ensures model == ToothProcedureInline ==>
                consultations == Recomputed(old(consultations), toothProcedures, cid) && CostConsistent(cid)
      ensures model == ToothProcedureInline && old(CostsMatch(consultations, toothProcedures)) ==> AllCostsConsistent()
      ensures patients == old(patients) && histories == old(histories) && teeth == old(teeth)
      ensures procedures == old(procedures) && toothProcedures == old(toothProcedures)
      ensures payments == old(payments) && appointments == old(appointments) && nextId == old(nextId)
    {
      if model == ToothProcedureInline {
        ghost var consistent := AllCostsConsistent();
        ghost var cs0 := consultations;
        RecomputeTotalCost(cid);
        if consistent {
          RecomputedMatches(cs0, toothProcedures, toothProcedures, cid);
        }
      }
    }

    /** `ConsultationAdmin.save_model`: add (no `existing` key) or change a
      * consultation from the admin form. The form requires a patient, a user
      * and a reason, since none of those columns allows blanks. The user saved
      * is the one the form carries; `save_model` replaces only a missing user
      * with the requester, which a valid form never leaves. `total_cost` is
      * read-only in this form, so a change keeps the stored total. */
    method AdminSaveConsultation(existing: Option<nat>, patient: nat, user: Option<nat>, reason: string, requester: nat)
      returns (r: Result<nat>)
      requires Valid()
      modifies this
      ensures Valid()
      ensures existing.Some? && !old(HasId(consultations, existing.value)) ==> r == Err(NotFound) && unchanged(this)
      ensures r.Err? ==> unchanged(this)
      ensures r.Ok? <==> (existing.None? || old(HasId(consultations, existing.value))) &&
                         old(HasId(patients, patient)) && user.Some? && reason != ""
      ensures r.Ok? && existing.None? ==>
                && r.value == old(nextId)
                && consultations == old(consultations) +
                     [Row(r.value, Consultation(patient, Some(Admin.UserToSave(user, requester)), reason, 0))]
      ensures r.Ok? && existing.Some? ==>
                && r.value == existing.value
                && consultations == old(Replace(consultations, existing.value,
                     Consultation(patient, Some(Admin.UserToSave(user, requester)), reason,
                                  Lookup(consultations, existing.value).value.totalCost)))
                && nextId == old(nextId)
      ensures r.Ok? ==> Lookup(consultations, r.value).Some? && Lookup(consultations, r.value).value.user == user
      ensures old(AllCostsConsistent()) ==> AllCostsConsistent()
      ensures patients == old(patients) && histories == old(histories) && teeth == old(teeth)
      ensures procedures == old(procedures) && toothProcedures == old(toothProcedures)
      ensures payments == old(payments) && appointments == old(appointments)
    {
      if existing.Some? && !HasId(consultations, existing.value) {
        return Err(NotFound);
      }
      if !HasId(patients, patient) || user.None? || reason == "" {
        return Err(InvalidForm);
      }
      var saved := Consultation(patient, Some(Admin.UserToSave(user, requester)), reason, 0);
      if existing.None? {
        var id := InsertConsultation(saved);
        r := Ok(id);
      } else {
        var id := existing.value;
        UpdateConsultation(id, saved.(totalCost := Lookup(consultations, id).value.totalCost));
        r := Ok(id);
      }
    }

    /** The statuses an appointment form accepts. */
    predicate AppointmentStatus(c: char) {
      c == 'P' || c == 'C' || c == 'A' || c == 'X'
    }

    /** `AppointmentAdmin.save_model`: add (no `existing` key) or change an
      * appointment. The form requires a stored patient, a user, a reason and
      * one of the four statuses; a linked consultation must be stored; and
      * the form's uniqueness check refuses a slot that another appointment
      * of the same user holds. `save_model` replaces only a missing user with
      * the requester, which a valid form never leaves, so the appointment is
      * saved as submitted. */
    method AdminSaveAppointment(existing: Option<nat>, a: Appointment, requester: nat) returns (r: Result<nat>)
      requires Valid()
      modifies this
      ensures Valid()
      ensures r.Err? ==> unchanged(this)
      ensures existing.Some? && !old(HasId(appointments, existing.value)) ==> r == Err(NotFound)
      ensures r.Err? ==> r.error == NotFound || r.error == InvalidForm
      ensures (existing.None? || old(HasId(appointments, existing.value))) ==>
                (r == Err(InvalidForm) <==>
                   || !old(AppointmentLinked(patients, consultations, a)) || a.user.None? || a.reason == ""
                   || !AppointmentStatus(a.status) || old(SlotTaken(appointments, a, existing)))
      ensures r.Ok? ==>
                && !old(SlotTaken(appointments, a, existing))
                && (existing.None? ==> r.value == old(nextId) && appointments == old(appointments) + [Row(r.value, a)])
                && (existing.Some? ==> r.value == existing.value && nextId == old(nextId) &&
                                       appointments == Replace(old(appointments), r.value, a))
      ensures r.Ok? ==> Lookup(appointments, r.value) == Some(a)
      ensures patients == old(patients) && histories == old(histories) && teeth == old(teeth)
      ensures consultations == old(consultations) && procedures == old(procedures)
      ensures toothProcedures == old(toothProcedures) && payments == old(payments)
    {
      if existing.Some? && !HasId(appointments, existing.value) {
        return Err(NotFound);
      }
      if || !AppointmentLinked(patients, consultations, a) || a.user.None? || a.reason == ""
         || !AppointmentStatus(a.status) || SlotTakenNow(a, existing) {
        return Err(InvalidForm);
      }
      var saved := a.(user := Some(Admin.UserToSave(a.user, requester)));
      assert saved == a;
      if existing.None? {
        var id := InsertAppointment(saved);
        r := Ok(id);
      } else {
        UpdateAppointment(existing.value, saved);
        r := Ok(existing.value);
      }
    }

    /** The INSERT of appointment a into a free slot. */
    method InsertAppointment(a: Appointment) returns (id: nat)
      requires Valid() && AppointmentLinked(patients, consultations, a) && !SlotTaken(appointments, a, None)
      modifies this
      ensures Valid()
      ensures id == old(nextId) && nextId == old(nextId) + 1
      ensures appointments == old(appointments) + [Row(id, a)]
      ensures Lookup(appointments, id) == Some(a)
      ensures patients == old(patients) && histories == old(histories) && teeth == old(teeth)
      ensures consultations == old(consultations) && procedures == old(procedures)
      ensures toothProcedures == old(toothProcedures) && payments == old(payments)
    {
      id := nextId;
      var row := Row(id, a);
      AppendFresh(appointments, id, a);
      assert Lookup(appointments + [row], id) == Some(a) by {
        assert (appointments + [row])[|appointments|] == row;
      }
      appointments := appointments + [row];
      nextId := nextId + 1;
    }

    /** The UPDATE of appointment id to a, whose slot no other appointment holds. */
    method UpdateAppointment(id: nat, a: Appointment)
      requires Valid() && HasId(appointments, id) && AppointmentLinked(patients, consultations, a) && !SlotTaken(appointments, a, Some(id))
      modifies this
      ensures Valid()
      ensures appointments == Replace(old(appointments), id, a)
      ensures Lookup(appointments, id) == Some(a)
      ensures nextId == old(nextId)
      ensures patients == old(patients) && histories == old(histories) && teeth == old(teeth)
      ensures consultations == old(consultations) && procedures == old(procedures)
      ensures toothProcedures == old(toothProcedures) && payments == old(payments)
    {
      ghost var as0 := appointments;
      ReplaceKeepsIdsUnique(appointments, id, a, nextId);
      LookupReplace(appointments, id, a, id);
      appointments := Replace(appointments, id, a);
      forall i, j | 0 <= i < j < |appointments| ensures !SlotsClash(appointments[i].data, appointments[j].data) {
        if as0[i].id == id {
          assert as0[j].id != id;
          assert !SlotsClash(as0[j].data, a);
        } else if as0[j].id == id {
          assert !SlotsClash(as0[i].data, a);
        }
      }
    }

    /** Whether some stored appointment other than `except` holds a's slot. */
    predicate SlotTakenNow(a: Appointment, except: Option<nat>)
      reads this
    {
      SlotTaken(appointments, a, except)
    }
  }
}
