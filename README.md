# Dental clinic bookkeeping core, modelled in Dafny

This project models the bookkeeping core of a Django dental-clinic
application (the `management` app). It covers:

- patients and their one clinical history;
- the 32-tooth chart (ADA numbering 1..32, status `S`/`C`/`O`/`E`/`P`);
- consultations, catalog procedures, the procedures applied to teeth, payments and appointments.

The database is one class, `Clinic.Database`:

- each table is a field holding a sequence of rows in insertion order;
- one counter, `nextId`, hands out primary keys;
- the request handlers and the `post_save` signal handlers are methods that update the tables in place.

`Database.Valid()` (the predicate `Clinic.Schema` over the eight tables) holds
every schema constraint the model keeps:

- unique primary keys below `nextId`;
- a unique `id_number` and a unique procedure name;
- the one-to-one history relation;
- the foreign keys between the modelled tables: `ClinicalHistory.patient`,
  `Tooth.history`, `Consultation.patient`, `ToothProcedure.consultation`,
  `ToothProcedure.tooth`, `ToothProcedure.procedure`, `Payment.consultation`,
  `Appointment.patient` and the optional `Appointment.consultation`;
- tooth numbers in 1..32 with `(history, number_ada)` unique;
- the `(date, start_time, user)` uniqueness of appointments.

Every method preserves `Valid()`. The billing methods also preserve
`AllCostsConsistent()`: each consultation's stored `total_cost` equals the sum
of its charges.

The pure decisions live in modules of functions and lemmas:

- `Models`: display name, totals, balance, default price, appointment duration, and the lemmas about the tables;
- `Views`: the tooth-status keyword rule, the patient search, the dashboard figures, the suggested payment and the history-form merge;
- `Admin`: age, balance badge, status badge, the user recorded on save, and the inline tooth choices.

The remaining modules are helpers:

- `Tables`: rows and keys;
- `Strings`: lower-casing, substring and order;
- `Sorting`: a stable insertion sort proved sorted and a permutation;
- `Common`: Option, Result, Outcome and Error.

Money is integer cents: every money column is a decimal with two places.
The clock (`date.today()`, `timezone.now()`) is passed in as a parameter.

A failing `bulk_create` is modelled by a boolean parameter: whether the
storage layer accepts that atomic batch. An accepted batch stores all 32
teeth and a rejected one stores none.

The two signal handlers do not treat a failed batch the same way:

- `create_teeth_if_missing` logs the failure and swallows it (`CreationFailed`,
  management/signals.py:67-70), so that error never reaches the caller;
- `create_history_and_teeth` re-raises it (`Fail(BatchRejected)`). The model
  then ends `patient_create` with the patient and the history already stored,
  because the request is not atomic.

The composition of the two handlers is proved in `Database.ProvisionNewPatient`:

- saving the history runs `create_teeth_if_missing`, which stores the 32 teeth;
- the patient handler then sees that teeth exist and returns;
- only when both batch inserts are rejected does the history stay without teeth, and the error then reaches the caller.

So a new patient ends with exactly one history and exactly the 32 healthy
teeth numbered 1..32, never 64.

Nothing in the code checks that an appointment ends after it starts, so the
model has no such check either.

The admin forms require a user on consultations and appointments, because
neither `user` column allows blanks. So the `if not obj.user` branch of both
`save_model` hooks never fires on a valid form. `Admin.UserToSave` models the
branch as written, and the admin methods refuse a form without a user.

## Model

| member | source | states |
|---|---|---|
| Models.DisplayName | management/models.py:21-24 | the name is first name, a space and paternal surname, followed by a space and the maternal surname exactly when that is filled |
| Models.HistoryIdOf | management/models.py:34-38 | `patient.history` is absent exactly when no history row belongs to the patient; when present it is the key of a row of that patient |
| Models.HistoryIdOfFacts | management/models.py:34-38 | under one-to-one the history found is the patient's only one, and looking it up yields a history of that patient |
| Models.HistoryIdOfAppend | management/signals.py:23 | inserting a history for a patient without one makes that row the patient's history, and changes no other patient's |
| Models.TeethOf | management/models.py:60-64 | `history.teeth` holds exactly the tooth rows pointing at the history |
| Models.FreshTeeth | management/signals.py:32-37 | the batch holds 32 teeth of the history, numbered 1..32 in order, all in status `S`, with consecutive keys |
| Models.FreshBatchChart | management/signals.py:56-63 | adding the batch to a history without teeth gives it exactly the batch as its chart, a full healthy chart of 32, and leaves every other history's teeth unchanged |
| Models.FreshBatchWellFormed | management/models.py:81-82 | adding the batch to a history without teeth keeps numbers in 1..32 and `(history, number_ada)` unique |
| Models.TeethOfAppend | management/models.py:60-64 | the teeth of a history in two concatenated tables are its teeth in each, in order |
| Models.TotalCharged | management/models.py:119-124 | `calculate_total_cost` is 0.00 when the consultation has no tooth procedures, and non-negative when all prices are |
| Models.TotalPaid | management/models.py:128-130 | the paid sum is 0.00 when the consultation has no payments, and non-negative when all amounts are |
| Models.Balance | management/models.py:126-131 | the balance is the stored `total_cost` minus the paid sum, and equals `total_cost` when there are no payments |
| Models.TotalChargedAppend | management/models.py:121-123 | the sum over two concatenated tables is the sum of the two sums |
| Models.TotalChargedAdd | management/views.py:284-289 | saving one more tooth procedure adds its price to its own consultation's sum only |
| Models.TotalChargedWithout | management/views.py:324-327 | deleting a tooth procedure removes exactly its price from its own consultation's sum only |
| Models.ChargeMovesOnlyItsConsultation | management/views.py:284-290 | a new charge raises its consultation's sum by its price and leaves every other consultation's sum equal |
| Models.UnchargeMovesOnlyItsConsultation | management/views.py:324-328 | a deleted charge lowers its consultation's sum by its price and leaves every other consultation's sum equal |
| Models.RecomputedMatches | management/views.py:288-290 | recomputing the one consultation whose sum moved restores `total_cost == sum of charges` for every consultation |
| Models.CostsMatchWithout | management/models.py:151-155 | deleting a consultation together with its charges keeps every other consultation's total consistent |
| Models.TotalPaidAppend | management/views.py:351-353 | a new payment adds its amount to its consultation's paid sum |
| Models.TotalPaidWithout | management/views.py:377-378 | deleting a payment removes exactly its amount from its consultation's paid sum |
| Models.BalanceAfterPayment | management/views.py:351-353 | a payment lowers its consultation's balance by its amount and no other balance |
| Models.BalanceWithoutPayment | management/views.py:377-378 | deleting a payment raises its consultation's balance by the amount it carried |
| Models.ChargedPrice | management/models.py:177-181 | a falsy price (unset or 0) becomes the procedure's base price; a nonzero given price is kept |
| Models.ChargedPriceNotResynced | management/models.py:177-181 | saving again after the base price changed keeps a nonzero charged price; only a zero one is replaced |
| Models.DurationMinutes | management/models.py:258-264 | the duration is end minus start in whole minutes truncated toward zero: zero or negative when the end is before the start, and zero when it is less than a minute before |
| Models.DurationOfWholeMinutes | management/models.py:258-264 | for times on whole minutes the duration is exactly the difference in minutes |
| Models.WithoutKeepsNamesUnique | management/models.py:136 | deleting from the catalog keeps procedure names unique |
| Models.DropConsultation | management/models.py:151-155 | the CASCADE keeps exactly the tooth procedures of other consultations |
| Models.TotalChargedKeep | management/models.py:151-155 | dropping rows of other consultations leaves a consultation's sum unchanged |
| Models.TotalChargedDrop | management/models.py:151-155 | the CASCADE of one consultation leaves every other consultation's sum unchanged |
| Models.UnlinkConsultation | management/models.py:244-250 | SET_NULL clears the link exactly on the appointments that pointed at the consultation and keeps every other column and row |
| Models.WithStatus | management/views.py:293-303 | saving a tooth's status changes only that tooth's status; keys, histories, numbers and all other teeth stay |
| Models.WithStatusKeepsCount | management/views.py:303 | a status change adds or removes no tooth of any history |
| Models.WithStatusKeepsChart | management/views.py:293-303 | a status change keeps the chart constraints, the set of tooth keys and every history's tooth count |
| Models.ReplaceHistoryFields | management/views.py:115-120 | saving new field values into a history keeps its patient, so the one-to-one relation and every patient's history stay as they were |
| Views.StatusAfterProcedure | management/views.py:293-301 | on the lower-cased name: `extracci` gives `E`; otherwise `obturación` or `resina` gives `O`; otherwise `P`, each as an if-and-only-if |
| Views.FilterMatching | management/views.py:63-69 | a patient is kept exactly when the query occurs, ignoring case, in the first name, a surname or the id number |
| Views.PatientOrderIsTotalPreorder | management/views.py:71 | ordering by (paternal surname, first name) is total and transitive |
| Views.SearchPatients | management/views.py:63-71 | the list is sorted by (paternal surname, first name) and is a permutation of the matching patients, or of all patients for an empty query |
| Views.AllPending | management/views.py:37-41 | a consultation is listed exactly when its total is nonzero and it has no payments or has paid less than its total |
| Views.PendingConsultations | management/views.py:37-41 | the dashboard list is the first five pending consultations, or all of them when fewer |
| Views.PendingListSound | management/views.py:37-41 | every listed consultation is pending, at most five are listed, and when fewer than five are listed every pending one is |
| Views.MonthlyIncome | management/views.py:29-34 | the income is 0.00 when no payment falls in the month and year |
| Views.MonthlyIncomeAppend | management/views.py:31-34 | a new payment adds its amount to the income of its own month only |
| Views.DetailTotals | management/views.py:203-205 | the detail page shows the paid sum and the balance over the stored total, which is the total when nothing is paid |
| Views.SuggestedPayment | management/views.py:358-362 | the payment form starts with the balance exactly when the balance is positive, and empty otherwise |
| Views.MergedFieldsMeaning | management/views.py:117-119 | after the merge a field holds the last filled value the form gives for it, and a field left empty keeps the history's value |
| Views.MergeCleanedData | management/views.py:117-119 | the loop over the cleaned data yields exactly the merged fields |
| Admin.Age | management/admin.py:112-116 | the age is the number of birthdays reached by today; on a birthday it is the exact year difference, and it is non-negative from the birth date on |
| Admin.BalanceDisplay | management/admin.py:177-189 | a positive balance is shown PENDIENTE, a negative one A FAVOR with its absolute value, and zero Saldada, each as an if-and-only-if |
| Admin.BalanceDisplayRoundTrip | management/admin.py:177-189 | the balance can be read back from its label |
| Admin.UserToSave | management/admin.py:206-210 | an assigned user is kept, and only a missing one is replaced by the requester |
| Admin.TeethOfPatient | management/admin.py:142-144 | exactly the teeth whose history belongs to the patient |
| Admin.ToothNumberOrderIsTotalPreorder | management/admin.py:144 | ordering by `number_ada` is total and transitive |
| Admin.InlineToothChoices | management/admin.py:133-147 | on an existing consultation's page the choices are its patient's teeth sorted by number, as a permutation; without a consultation, or when it is not found, there is no restriction |
| Admin.BadgeColour | management/admin.py:241-250 | P, C, A and X get their fixed colours and every other status gets `#808080` |
| Admin.BadgeColourDistinguishes | management/admin.py:241-249 | the four known statuses get four different colours, none of them grey |
| Strings.Contains | management/views.py:64-68 | `icontains` holds exactly when the needle occurs at some position of the haystack |
| Sorting.SortCorrect | management/views.py:71 | the sort returns a sorted permutation of its input |
| Clinic.Database.BulkCreateTeeth | management/signals.py:32-38 | the atomic batch stores all 32 fresh teeth of the history or, when rejected, none |
| Clinic.Database.CreateTeethIfMissing | management/signals.py:47-74 | with 0 teeth it inserts the 32 and swallows a rejection; with 1..31 it only warns; with 32 or more it changes nothing |
| Clinic.Database.InsertHistory | management/signals.py:23 | the new history row starts without teeth and becomes the patient's only history |
| Clinic.Database.NewHistory | management/signals.py:23 | creating the history runs the history handler: the chart is complete if its batch is accepted, and empty otherwise |
| Clinic.Database.InsertTeethUnlessPresent | management/signals.py:26-44 | a history that has any teeth gets none; otherwise it gets the 32, and a rejection is re-raised |
| Clinic.Database.ProvisionNewHistory | management/signals.py:21-38 | for a patient without a history, one history is created, and it ends with exactly the 32 fresh teeth unless both batches are rejected |
| Clinic.Database.CreateHistoryAndTeeth | management/signals.py:9-44 | a non-creation save changes nothing; an existing history is reused; a history with teeth gets none; it fails, with the teeth untouched, exactly when no batch went through |
| Clinic.Database.ProvisionNewPatient | management/signals.py:15-38 | composing the two handlers on a new patient leaves one new history with exactly 32 healthy teeth numbered 1..32, never 64, unless both batches are rejected |
| Clinic.Database.PatientCreate | management/views.py:103-123 | an invalid form saves nothing; otherwise the patient and exactly one history row are appended, every other history is unchanged, and on success the chart is full and healthy and the new history holds the form's filled values (on failure it stays empty) |
| Clinic.Database.SaveNewPatient | management/views.py:110-120 | once both forms are valid, the patient is stored and provisioned; `histories` is the old table plus the one new history, holding the form's values on success and no values on failure |
| Clinic.Database.ProvisionAndMerge | management/views.py:111-120 | the handlers run and then the history form is merged; `histories` is the old table plus the one new history with the merged values (empty when the handlers fail), and the re-save of the complete chart adds no tooth |
| Clinic.Database.MergeHistoryForm | management/views.py:115-120 | `histories` is the old table with only that row's fields replaced by the merged values; its patient, every patient's history, the teeth and the key counter are unchanged |
| Clinic.Database.SaveHistoryFields | management/views.py:119-120 | `history.save()` replaces only that history's field values |
| Clinic.Database.CreatePatientRow | management/views.py:111 | the patient is inserted with a fresh key and has no history yet |
| Clinic.Database.SaveToothProcedure | management/models.py:177-181 | the new row is charged the given price, or the catalog's base price when the given one is falsy |
| Clinic.Database.RecomputeTotalCost | management/views.py:289-290 | only the consultation's stored total changes, and it becomes the sum of its charges |
| Clinic.Database.SetToothStatus | management/views.py:297-303 | only the tooth's status changes |
| Clinic.Database.AddToothProcedure | management/views.py:276-306 | 404 for a missing consultation and nothing saved for an invalid form; otherwise the charge is stored, the consultation table is the old one with only that consultation's total recomputed (so it stays, with its patient, user and reason), the total rises by exactly that charge and matches the charges again, and only the chosen tooth changes status, by the keyword rule |
| Clinic.Database.DeleteToothProcedure | management/views.py:318-331 | the row is removed; its consultation stays, with only its total recomputed, which drops by exactly the removed price and matches the remaining charges; no other consultation changes |
| Clinic.Database.RemoveToothProcedureRow | management/views.py:324 | the DELETE removes exactly that row and keeps every other table |
| Clinic.Database.AddPayment | management/views.py:343-356 | the payment is stored for the consultation and raises only its paid sum; `total_cost` is untouched |
| Clinic.Database.DeletePayment | management/views.py:372-380 | the payment is removed and lowers only its consultation's paid sum; `total_cost` is untouched |
| Clinic.Database.CreateProcedure | management/views.py:401-409 | a catalog entry is stored exactly when its name is filled and not yet taken and a base price is given |
| Clinic.Database.DeleteProcedure | management/models.py:161-164 | PROTECT refuses while a tooth procedure refers to the entry; otherwise it is removed |
| Clinic.Database.CreateConsultation | management/views.py:225-239 | a 404 for a missing patient, nothing for an empty reason; otherwise a consultation with the requester and a total of 0.00, which is consistent |
| Clinic.Database.InsertConsultation | management/models.py:109 | a new consultation starts at 0.00, and no charge refers to it yet |
| Clinic.Database.NewConsultationUncharged | management/models.py:151-155 | no tooth procedure refers to a key not yet handed out |
| Clinic.Database.UpdateConsultation | management/admin.py:206-210 | a changed consultation keeps its stored total, so the totals stay consistent |
| Clinic.Database.AppendConsultationRow | management/models.py:92-109 | the INSERT adds the row with the next key and keeps every foreign key valid |
| Clinic.Database.ReplaceConsultationRow | management/models.py:92-109 | the UPDATE replaces that row and keeps every foreign key valid |
| Models.CostsMatchAppend | management/models.py:109 | a new consultation whose total equals its charges keeps every total consistent |
| Models.CostsMatchReplace | management/models.py:109 | an update that keeps a consultation's total keeps every total consistent |
| Clinic.Database.DeleteConsultation | management/models.py:186-191 | PROTECT refuses while the consultation has payments; otherwise its tooth procedures go with it (CASCADE), linked appointments lose the link (SET_NULL), and the other totals stay consistent |
| Clinic.Database.DropToothProceduresOf | management/models.py:151-155 | the CASCADE removes exactly the consultation's tooth procedures |
| Clinic.Database.UnlinkAppointments | management/models.py:244-250 | SET_NULL clears exactly the links to the consultation |
| Clinic.Database.RemoveConsultationRow | management/models.py:188-191 | the consultation row is deleted once nothing refers to it |
| Clinic.Database.SaveFormset | management/admin.py:191-204 | after the tooth-procedure inline the total is recomputed and consistent; after the payment inline nothing changes |
| Clinic.Database.AdminSaveConsultation | management/admin.py:206-210 | the form is refused unless it names a stored patient, a user and a reason; the stored user is then the one submitted; a change keeps the stored total |
| Clinic.Database.AdminSaveAppointment | management/admin.py:253-257 | the form is refused unless it names a stored patient, a user, a reason, one of the four statuses, a stored consultation if any, and a slot no other appointment holds; it is refused exactly then, and otherwise the appointment is stored as submitted |
| Clinic.Database.InsertAppointment | management/models.py:270 | an appointment in a free slot is stored and `(date, start_time, user)` stays unique |
| Clinic.Database.UpdateAppointment | management/models.py:270 | a changed appointment whose slot no other appointment holds keeps the slots unique |

## Left out

- Logging, `messages`, template rendering, redirects and `login_required` are left out: they have no effect on the tables.
- The clock is a parameter: `timezone.now()` and `date.today()` become the `today`, month and year arguments.
- Lower-casing covers ASCII and the Latin-1 capitals only. Python's full Unicode case mapping is not modelled.
- String order is code-point order. The database collation, and the order of rows that compare equal, are not modelled.
- Money is unbounded integer cents. The `max_digits=10` overflow of the decimal columns is not modelled.
- Thousands-separator currency formatting and the badge HTML are presentation. Only the label, amount and colour are modelled.
- The pages `patient_edit`, `patient_detail`, `patient_delete`, `consultation_edit` and `procedure_edit` are not modelled, nor are the list pages other than the patient search. They are outside the bookkeeping core.
- `populate_data` is not modelled: it draws random float prices. Form widgets and labels, and `urls.py`, are presentation and routing.
- No check that an appointment ends after it starts is modelled, because the code has none.
- Views.PendingConsultations: takes the consultations in the order given; the dashboard query's own ordering is not modelled.
- The `object_id` of the admin URL is taken as an already parsed key. Parsing the string is not modelled.
- Clinic.Database.SaveFormset: models only the recompute after the inline formset is saved. The rows the formset itself inserts, changes or deletes are not modelled.
- Clinic.Database.AdminSaveAppointment: does not model the one-to-one uniqueness of `Appointment.consultation`.
- Users are not a table of the model. The `user` foreign keys of consultations and appointments accept any key, and the admin form's check that the user exists is not modelled.
- `max_length` limits of the text columns are not modelled.
- Form cleaning is not modelled: the string arguments of `PatientCreate`, `CreateProcedure`, `CreateConsultation`, `AdminSaveConsultation` and `AdminSaveAppointment` stand for the forms' cleaned values. Django strips surrounding whitespace from a text field before its required check, so a name or reason of only spaces arrives as the empty string, and an empty `id_number` (`blank=True, null=True`) arrives as `None`, never `Some("")`.
- Columns that no modelled operation reads are left out: notes, descriptions, gender, phone, address, the timestamps and the opening date.
- Models.TotalCharged: the contract states the empty and the non-negative cases. The full sum is stated through TotalChargedAppend, TotalChargedAdd and TotalChargedWithout.
