/** The participant controller: handlers over the participant table with
    no role checks. The creator of a record and the confirming user come
    from the request body or query string. */
module ParticipantController {
  import opened Http
  import opened Age
  import opened Participants

  const NOT_FOUND_MESSAGE: string := "Participante não encontrado"

  /** The participants a given user created. */
  function CreatedBy(rows: map<ParticipantId, Participant>, user: UserId): (r: map<ParticipantId, Participant>)
    ensures forall id :: id in r <==> id in rows && rows[id].createdByUserId == user
    ensures forall id :: id in r ==> r[id] == rows[id]
  {
    map id | id in rows && rows[id].createdByUserId == user :: rows[id]
  }

  /** `getParticipants`: every participant. */
  function GetParticipants(rows: map<ParticipantId, Participant>): (r: Outcome<map<ParticipantId, Participant>>)
    ensures r.Ok? && r.status == OK && r.value == rows
  {
    Ok(OK, rows)
  }

  /** `getParticipantsByUser`: the participants whose creator is the query
      value. An absent query value puts no condition on the store's query,
      so every participant comes back. */
  function GetParticipantsByUser(rows: map<ParticipantId, Participant>, createdByUserId: Option<UserId>)
    : (r: Outcome<map<ParticipantId, Participant>>)
    ensures r.Ok? && r.status == OK
    ensures createdByUserId.None? ==> r.value == rows
    ensures createdByUserId.Some? ==>
      forall id :: id in r.value <==> id in rows && rows[id].createdByUserId == createdByUserId.value
    ensures forall id :: id in r.value ==> id in rows && r.value[id] == rows[id]
  {
    match createdByUserId
    case None => Ok(OK, rows)
    case Some(user) => Ok(OK, CreatedBy(rows, user))
  }

  /** `getParticipantById` (the router's get-by-id is the same handler): the
      record, 404 for an unknown id, and 500 for an id the store rejects. */
  function GetParticipantById(rows: map<ParticipantId, Participant>, id: ParticipantId): (r: Outcome<Participant>)
    ensures !IsObjectId(id) ==> r == Fail(INTERNAL_ERROR, STORE_ERROR_BODY)
    ensures IsObjectId(id) && id !in rows ==> r == Fail(NOT_FOUND, NOT_FOUND_MESSAGE)
    ensures r.Ok? <==> id in rows && IsObjectId(id)
    ensures r.Ok? ==> r.status == OK && r.value == rows[id]
  {
    if !IsObjectId(id) then Fail(INTERNAL_ERROR, STORE_ERROR_BODY)
    else match FindById(rows, id)
      case None => Fail(NOT_FOUND, NOT_FOUND_MESSAGE)
      case Some(p) => Ok(OK, p)
  }

  /** `createParticipant`: 400 when the CPF is already registered, the
      table untouched; otherwise exactly one new row, with the age computed
      from the birth date and the creator taken from the body. `newId` is
      the fresh id the store assigns. */
  method CreateParticipant(t: ParticipantTable, input: Details, createdByUserId: UserId, today: Date, newId: ParticipantId)
    returns (res: Outcome<Participant>)
    requires t.Valid()
    requires IsObjectId(newId) && newId !in t.rows
    modifies t
    ensures t.Valid()
    ensures CpfExists(old(t.rows), input.cpf) ==> res == Fail(BAD_REQUEST, CPF_TAKEN) && t.rows == old(t.rows)
    ensures !CpfExists(old(t.rows), input.cpf) ==>
      var p := NewParticipant(newId, input, CalculateAge(input.birthDate, today), createdByUserId);
      res == Ok(CREATED, p) && t.rows == old(t.rows)[newId := p]
    ensures PaymentsCoherent(old(t.rows)) ==> PaymentsCoherent(t.rows)
  {
    var age := CalculateAge(input.birthDate, today);
    if CpfExists(t.rows, input.cpf) {
      return Fail(BAD_REQUEST, CPF_TAKEN);
    }
    var p := NewParticipant(newId, input, age, createdByUserId);
    t.Insert(p);
    res := Ok(CREATED, p);
  }

  /** `updateParticipant`: 404 for an unknown id; 400 when the CPF changes
      to one another participant holds (keeping the record's own CPF passes);
      otherwise the details and the recomputed age replace the old ones,
      and the id, the creator and the payment fields stay as they were. */
  method UpdateParticipant(t: ParticipantTable, id: ParticipantId, input: Details, today: Date)
    returns (res: Outcome<Participant>)
    requires t.Valid()
    modifies t
    ensures t.Valid()
    ensures !IsObjectId(id) ==> res == Fail(INTERNAL_ERROR, STORE_ERROR_BODY) && t.rows == old(t.rows)
    ensures IsObjectId(id) && id !in old(t.rows) ==> res == Fail(NOT_FOUND, NOT_FOUND_MESSAGE) && t.rows == old(t.rows)
    ensures id in old(t.rows) && input.cpf != old(t.rows)[id].cpf && CpfExists(old(t.rows), input.cpf) ==>
      res == Fail(BAD_REQUEST, CPF_TAKEN) && t.rows == old(t.rows)
    ensures id in old(t.rows) && (input.cpf == old(t.rows)[id].cpf || !CpfExists(old(t.rows), input.cpf)) ==>
      var was := old(t.rows)[id];
      var p := was.(fullName := input.fullName, birthDate := input.birthDate,
                    age := CalculateAge(input.birthDate, today), cpf := input.cpf,
                    district := input.district, church := input.church);
      res == Ok(OK, p) && t.rows == old(t.rows)[id := p]
    ensures PaymentsCoherent(old(t.rows)) ==> PaymentsCoherent(t.rows)
  {
    var age := CalculateAge(input.birthDate, today);
    if !IsObjectId(id) {
      return Fail(INTERNAL_ERROR, STORE_ERROR_BODY);
    }
    var found := FindById(t.rows, id);
    if found.None? {
      return Fail(NOT_FOUND, NOT_FOUND_MESSAGE);
    }
    if found.value.cpf != input.cpf && CpfExists(t.rows, input.cpf) {
      return Fail(BAD_REQUEST, CPF_TAKEN);
    }
    var err := t.Update(id, DetailsPatch(input, age));
    if err.Some? {
      res := Fail(INTERNAL_ERROR, STORE_ERROR_BODY);
    } else {
      res := Ok(OK, t.rows[id]);
    }
  }

  /** `deleteParticipant`: no role check; the row goes, or 500 when the
      store cannot find or read the id. */
  method DeleteParticipant(t: ParticipantTable, id: ParticipantId) returns (res: Outcome<string>)
    requires t.Valid()
    modifies t
    ensures t.Valid()
    ensures id in old(t.rows) ==> res == Ok(OK, "Participante deletado") && t.rows == old(t.rows) - {id}
    ensures PaymentsCoherent(old(t.rows)) ==> PaymentsCoherent(t.rows)
    ensures id !in old(t.rows) ==> res == Fail(INTERNAL_ERROR, STORE_ERROR_BODY) && t.rows == old(t.rows)
  {
    var err := t.Delete(id);
    if err.Some? {
      res := Fail(INTERNAL_ERROR, STORE_ERROR_BODY);
    } else {
      res := Ok(OK, "Participante deletado");
    }
  }

  /** `confirmPayment`: always confirms, stamping the date and the
      confirming user from the body; 500 when the store cannot find or read
      the id. Only the three payment fields change, all three set. */
  method ConfirmPayment(t: ParticipantTable, participantId: ParticipantId, confirmedByUserId: UserId, now: Instant)
    returns (res: Outcome<Participant>)
    requires t.Valid()
    modifies t
    ensures t.Valid()
    ensures participantId !in old(t.rows) ==> res == Fail(INTERNAL_ERROR, STORE_ERROR_BODY) && t.rows == old(t.rows)
    ensures participantId in old(t.rows) ==>
      var p := old(t.rows)[participantId].(paymentConfirmed := true, paymentConfirmationDate := Some(now),
                                          confirmedByUserId := Some(confirmedByUserId));
      res == Ok(OK, p) && t.rows == old(t.rows)[participantId := p]
    ensures PaymentsCoherent(old(t.rows)) ==> PaymentsCoherent(t.rows)
  {
    var err := t.Update(participantId, PaymentPatch(true, Some(now), Some(confirmedByUserId)));
    if err.Some? {
      res := Fail(INTERNAL_ERROR, STORE_ERROR_BODY);
    } else {
      res := Ok(OK, t.rows[participantId]);
    }
  }
}
