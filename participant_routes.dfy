/** The participant router mounted under /api/participants. Every handler
    runs after the inline guard has accepted the request; `caller` is the
    decoded token. Get-by-id is `ParticipantController.GetParticipantById`. */
module ParticipantRoutes {
  import opened Http
  import opened Age
  import opened Participants
  import ParticipantController

  const BAD_ID: string := "ID do participante inválido"
  const MALFORMED_ID: string := "ID do participante malformado ou inválido."
  const PAYMENT_ERROR: string := "Erro ao atualizar pagamento"
  const DELETED: string := "Participante deletado"
  const DELETE_ERROR: string := "Erro ao deletar participante"

  /** `s.length`: the number of UTF-16 code units, one per character up to
      U+FFFF and two (a surrogate pair) per character beyond. It is never
      less than the number of characters nor more than twice it, and equals
      it when no character lies beyond U+FFFF. */
  function Utf16Length(s: string): (n: nat)
    ensures |s| <= n <= 2 * |s|
    ensures (forall i :: 0 <= i < |s| ==> s[i] as int <= 0xFFFF) ==> n == |s|
  {
    if s == [] then 0
    else (if s[0] as int <= 0xFFFF then 1 else 2) + Utf16Length(s[1..])
  }

  /** A well-formed object id is 24 code units long, so it passes the
      router's length check. */
  lemma ObjectIdPassesLengthCheck(id: ParticipantId)
    requires IsObjectId(id)
    ensures Utf16Length(id) == 24
  {
  }

  /** The listing: a youth director sees exactly the participants they
      created, an administrator sees every participant, anyone else is
      refused with 403 and no data. */
  function ListParticipants(rows: map<ParticipantId, Participant>, caller: Claims)
    : (r: Outcome<map<ParticipantId, Participant>>)
    ensures caller.role == YOUTH_DIRECTOR ==>
      r.Ok? && r.status == OK &&
      (forall id :: id in r.value <==> id in rows && rows[id].createdByUserId == caller.id) &&
      (forall id :: id in r.value ==> r.value[id] == rows[id])
    ensures caller.role == ADMINISTRATOR ==> r == Ok(OK, rows)
    ensures caller.role != YOUTH_DIRECTOR && caller.role != ADMINISTRATOR ==> r == Fail(FORBIDDEN, ACCESS_DENIED)
  {
    if caller.role == YOUTH_DIRECTOR then Ok(OK, ParticipantController.CreatedBy(rows, caller.id))
    else if caller.role == ADMINISTRATOR then Ok(OK, rows)
    else Fail(FORBIDDEN, ACCESS_DENIED)
  }

  /** A director's listing is the controller's by-user listing for the
      director's own id, and an administrator's is the controller's full
      listing. */
  lemma ListingMatchesController(rows: map<ParticipantId, Participant>, caller: Claims)
    ensures caller.role == YOUTH_DIRECTOR ==>
      ListParticipants(rows, caller) == ParticipantController.GetParticipantsByUser(rows, Some(caller.id))
    ensures caller.role == ADMINISTRATOR ==>
      ListParticipants(rows, caller) == ParticipantController.GetParticipants(rows)
  {
  }

  /** Every participant shows up in the listing of the director who created
      it, and in no other director's listing: two directors whose listings
      both hold it have the same id. */
  lemma EachParticipantListedOnce(rows: map<ParticipantId, Participant>, id: ParticipantId, one: Claims, other: Claims)
    requires id in rows && one.role == YOUTH_DIRECTOR && other.role == YOUTH_DIRECTOR
    ensures ListParticipants(rows, one).Ok? && ListParticipants(rows, other).Ok?
    ensures id in ListParticipants(rows, one).value <==> one.id == rows[id].createdByUserId
    ensures id in ListParticipants(rows, one).value && id in ListParticipants(rows, other).value ==> one.id == other.id
  {
  }

  /** Create: the controller's create with the creator taken from the token. */
  method CreateParticipant(t: ParticipantTable, caller: Claims, input: Details, today: Date, newId: ParticipantId)
    returns (res: Outcome<Participant>)
    requires t.Valid()
    requires IsObjectId(newId) && newId !in t.rows
    modifies t
    ensures t.Valid()
    ensures CpfExists(old(t.rows), input.cpf) ==> res == Fail(BAD_REQUEST, CPF_TAKEN) && t.rows == old(t.rows)
    ensures !CpfExists(old(t.rows), input.cpf) ==>
      var p := NewParticipant(newId, input, CalculateAge(input.birthDate, today), caller.id);
      res == Ok(CREATED, p) && t.rows == old(t.rows)[newId := p] && p.createdByUserId == caller.id
    ensures PaymentsCoherent(old(t.rows)) ==> PaymentsCoherent(t.rows)
  {
    res := ParticipantController.CreateParticipant(t, input, caller.id, today, newId);
  }

  /** Payment: an id that is not 24 UTF-16 code units long is refused with 400
      before the store is touched, and so is one the store finds malformed;
      an unknown id is 500. Otherwise `confirm` sets the flag, the date and
      the confirmer (the caller) together, or clears all three; nothing else
      changes. */
  method SetPayment(t: ParticipantTable, caller: Claims, id: ParticipantId, confirm: bool, now: Instant)
    returns (res: Outcome<Participant>)
    requires t.Valid()
    modifies t
    ensures t.Valid()
    ensures Utf16Length(id) != 24 ==> res == Fail(BAD_REQUEST, BAD_ID) && t.rows == old(t.rows)
    ensures Utf16Length(id) == 24 && !IsObjectId(id) ==> res == Fail(BAD_REQUEST, MALFORMED_ID) && t.rows == old(t.rows)
    ensures IsObjectId(id) && id !in old(t.rows) ==> res == Fail(INTERNAL_ERROR, PAYMENT_ERROR) && t.rows == old(t.rows)
    ensures id in old(t.rows) ==>
      var p := old(t.rows)[id].(paymentConfirmed := confirm,
                                paymentConfirmationDate := if confirm then Some(now) else None,
                                confirmedByUserId := if confirm then Some(caller.id) else None);
      res == Ok(OK, p) && t.rows == old(t.rows)[id := p] && PaymentCoherent(p)
    ensures PaymentsCoherent(old(t.rows)) ==> PaymentsCoherent(t.rows)
  {
    if Utf16Length(id) != 24 {
      return Fail(BAD_REQUEST, BAD_ID);
    }
    if IsObjectId(id) {
      ObjectIdPassesLengthCheck(id);
    }
    var patch := PaymentPatch(confirm, if confirm then Some(now) else None, if confirm then Some(caller.id) else None);
    var err := t.Update(id, patch);
    match err
    case None =>
      res := Ok(OK, t.rows[id]);
    case Some(MalformedId) =>
      res := Fail(BAD_REQUEST, MALFORMED_ID);
    case Some(_) =>
      res := Fail(INTERNAL_ERROR, PAYMENT_ERROR);
  }

  /** Delete: anyone but an administrator gets 403 and the table stays as
      it was; for an administrator exactly that row goes, or 500 when the
      store cannot find or read the id. */
  method DeleteParticipant(t: ParticipantTable, caller: Claims, id: ParticipantId) returns (res: Outcome<string>)
    requires t.Valid()
    modifies t
    ensures t.Valid()
    ensures caller.role != ADMINISTRATOR ==> res == Fail(FORBIDDEN, ACCESS_DENIED) && t.rows == old(t.rows)
    ensures caller.role == ADMINISTRATOR && id in old(t.rows) ==> res == Ok(OK, DELETED) && t.rows == old(t.rows) - {id}
    ensures PaymentsCoherent(old(t.rows)) ==> PaymentsCoherent(t.rows)
    ensures caller.role == ADMINISTRATOR && id !in old(t.rows) ==>
      res == Fail(INTERNAL_ERROR, DELETE_ERROR) && t.rows == old(t.rows)
  {
    if caller.role != ADMINISTRATOR {
      return Fail(FORBIDDEN, ACCESS_DENIED);
    }
    var err := t.Delete(id);
    if err.Some? {
      res := Fail(INTERNAL_ERROR, DELETE_ERROR);
    } else {
      res := Ok(OK, DELETED);
    }
  }
}
