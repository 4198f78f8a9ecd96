/**
 * The admin site's own computations (management/admin.py): the patient's age,
 * the balance badge of a consultation, the status badge of an appointment,
 * the user recorded on save, and the tooth choices of the procedure inline.
 */
module Admin {
  import opened Common
  import opened Tables
  import opened Sorting
  import opened Models

  // ------------------------------------------------------------ PatientAdmin

  /** Lexicographic order of dates: a strictly before b. */
  predicate DateBefore(a: Date, b: Date) {
    a.year < b.year ||
    (a.year == b.year && (a.month < b.month || (a.month == b.month && a.day < b.day)))
  }

  /** `PatientAdmin.age`: the number of birthdays reached by `today`, where the
    * birthday of year y is (y, birth month, birth day). */
  function Age(birth: Date, today: Date): (r: int)
    ensures !DateBefore(today, Date(birth.year + r, birth.month, birth.day))
    ensures DateBefore(today, Date(birth.year + r + 1, birth.month, birth.day))
    ensures today.month == birth.month && today.day == birth.day ==> r == today.year - birth.year
    ensures !DateBefore(today, birth) ==> r >= 0
  {
    var beforeBirthday := today.month < birth.month || (today.month == birth.month && today.day < birth.day);
    today.year - birth.year - (if beforeBirthday then 1 else 0)
  }

  // ------------------------------------------------------- ConsultationAdmin

  /** What the "Saldo Pendiente" column shows. */
  datatype BalanceLabel = Owed(amount: Cents) | InFavour(amount: Cents) | Settled {
    function Caption(): string {
      match this
      case Owed(_) => "PENDIENTE"
      case InFavour(_) => "A FAVOR"
      case Settled => "Saldada"
    }
  }

  /** `get_balance_display`: a positive balance is owed, a negative one is in the
    * patient's favour and shown by its absolute value, zero is settled. */
  function BalanceDisplay(balance: Cents): (r: BalanceLabel)
    ensures r.Owed? <==> balance > 0
    ensures r.InFavour? <==> balance < 0
    ensures r.Settled? <==> balance == 0
    ensures !r.Settled? ==> r.amount > 0 && (r.amount == balance || r.amount == -balance)
  {
    if balance > 0 then Owed(balance)
    else if balance < 0 then InFavour(-balance)
    else Settled
  }

  /** The balance a label stands for. */
  function SignedAmount(l: BalanceLabel): Cents {
    match l
    case Owed(a) => a
    case InFavour(a) => -a
    case Settled => 0
  }

  /** The label loses nothing: the balance can be read back from it. */
  lemma BalanceDisplayRoundTrip(balance: Cents)
    ensures SignedAmount(BalanceDisplay(balance)) == balance
  {
  }

  /** `save_model` of ConsultationAdmin and AppointmentAdmin: the user recorded
    * is the one already assigned, or else the requesting user. */
  function UserToSave(current: Option<nat>, requester: nat): (r: nat)
    ensures current.Some? ==> r == current.value
    ensures current.None? ==> r == requester
  {
    match current
    case Some(u) => u
    case None => requester
  }

  // ---------------------------------------------------- ToothProcedureInline

  /** `order_by('number_ada')`. */
  predicate ToothNumberOrder(a: Row<Tooth>, b: Row<Tooth>) {
    a.data.number <= b.data.number
  }

  lemma ToothNumberOrderIsTotalPreorder()
    ensures TotalPreorder(ToothNumberOrder)
  {
  }

  /** The tooth belongs to a history of patient p (`history__patient=p`). */
  predicate OwnedBy(t: Row<Tooth>, hs: seq<Row<History>>, p: nat) {
    match Lookup(hs, t.data.history)
    case Some(h) => h.patient == p
    case None => false
  }

  function TeethOfPatient(ts: seq<Row<Tooth>>, hs: seq<Row<History>>, p: nat): (r: seq<Row<Tooth>>)
    ensures forall x :: x in r <==> x in ts && OwnedBy(x, hs, p)
  {
    if ts == [] then []
    else if OwnedBy(ts[0], hs, p) then [ts[0]] + TeethOfPatient(ts[1..], hs, p)
    else TeethOfPatient(ts[1..], hs, p)
  }

  /** The queryset of the inline's tooth field: unrestricted, or the given teeth. */
  datatype ToothChoices = AllTeeth | OnlyTeeth(teeth: seq<Row<Tooth>>)

  /** `formfield_for_foreignkey`: on the page of an existing consultation the
    * tooth field offers that consultation's patient's teeth ordered by number;
    * on the add page, or when the consultation does not exist, no restriction applies. */
  function InlineToothChoices(objectId: Option<nat>, cs: seq<Row<Consultation>>,
                              hs: seq<Row<History>>, ts: seq<Row<Tooth>>): (r: ToothChoices)
    ensures objectId.None? ==> r == AllTeeth
    ensures objectId.Some? && !HasId(cs, objectId.value) ==> r == AllTeeth
    ensures objectId.Some? && HasId(cs, objectId.value) ==>
              && r.OnlyTeeth?
              && SortedBy(r.teeth, ToothNumberOrder)
              && multiset(r.teeth) == multiset(TeethOfPatient(ts, hs, Lookup(cs, objectId.value).value.patient))
              && forall x :: x in r.teeth <==> x in ts && OwnedBy(x, hs, Lookup(cs, objectId.value).value.patient)
  {
    match objectId
    case None => AllTeeth
    case Some(id) =>
      match Lookup(cs, id)
      case None => AllTeeth
      case Some(c) =>
        var own := TeethOfPatient(ts, hs, c.patient);
        ToothNumberOrderIsTotalPreorder();
        SortCorrect(own, ToothNumberOrder);
        var sorted := Sort(own, ToothNumberOrder);
        assert forall x :: x in sorted <==> x in multiset(own);
        OnlyTeeth(sorted)
  }

  // ------------------------------------------------------- AppointmentAdmin

  const PendingColour: string := "#FFA500"
  const ConfirmedColour: string := "#4169E1"
  const AttendedColour: string := "#32CD32"
  const CancelledColour: string := "#DC143C"
  const UnknownColour: string := "#808080"

  /** `status_badge`: the background colour of an appointment's status. */
  function BadgeColour(status: char): (r: string)
    ensures status == 'P' ==> r == PendingColour
    ensures status == 'C' ==> r == ConfirmedColour
    ensures status == 'A' ==> r == AttendedColour
    ensures status == 'X' ==> r == CancelledColour
    ensures status !in {'P', 'C', 'A', 'X'} ==> r == UnknownColour
  {
    var colours := map['P' := PendingColour, 'C' := ConfirmedColour, 'A' := AttendedColour, 'X' := CancelledColour];
    if status in colours then colours[status] else UnknownColour
  }

  /** The badge tells the four known statuses apart, and none of them is shown grey. */
  lemma BadgeColourDistinguishes(s: char, t: char)
    requires s in {'P', 'C', 'A', 'X'}
    ensures BadgeColour(s) != UnknownColour
    ensures t in {'P', 'C', 'A', 'X'} && BadgeColour(s) == BadgeColour(t) ==> s == t
  {
  }
}
