/** The participant table: the record, the rules every stored row obeys, and
    the store operations the handlers call (find, create, update, delete),
    including the errors the store raises. */
module Participants {
  import opened Http
  import opened Age

  /** Participant ids are MongoDB object ids. */
  type ParticipantId = string

  datatype Participant = Participant(
    id: ParticipantId,
    fullName: string,
    birthDate: Date,
    age: int,
    cpf: string,
    district: string,
    church: string,
    createdByUserId: UserId,
    paymentConfirmed: bool,
    paymentConfirmationDate: Option<Instant>,
    confirmedByUserId: Option<UserId>)

  /** The fields a request body supplies on create and update. */
  datatype Details = Details(fullName: string, birthDate: Date, cpf: string, district: string, church: string)

  predicate IsHexDigit(c: char)
  {
    ('0' <= c <= '9') || ('a' <= c <= 'f') || ('A' <= c <= 'F')
  }

  /** A well-formed object id: 24 hexadecimal digits. The store rejects any
      other id with a malformed-id error. */
  predicate IsObjectId(id: string)
  {
    |id| == 24 && forall i :: 0 <= i < |id| ==> IsHexDigit(id[i])
  }

  /** `cpfExists`: the lookup by CPF finds a participant, that is, the CPF
      is among the CPFs of the stored records. */
  predicate CpfExists(rows: map<ParticipantId, Participant>, cpf: string)
    ensures CpfExists(rows, cpf) <==> cpf in (set p | p in rows.Values :: p.cpf)
  {
    exists id :: id in rows && rows[id].cpf == cpf
  }

  ghost predicate CpfsUnique(rows: map<ParticipantId, Participant>)
  {
    forall a, b :: a in rows && b in rows && rows[a].cpf == rows[b].cpf ==> a == b
  }

  /** The payment flag, the confirmation date and the confirming user are
      set together and cleared together. */
  ghost predicate PaymentCoherent(p: Participant)
  {
    (p.paymentConfirmed <==> p.paymentConfirmationDate.Some?) &&
    (p.paymentConfirmed <==> p.confirmedByUserId.Some?)
  }

  ghost predicate PaymentsCoherent(rows: map<ParticipantId, Participant>)
  {
    forall id :: id in rows ==> PaymentCoherent(rows[id])
  }

  /** The record a create writes: the given details, the age computed from
      the birth date, the creator, and the payment fields at their
      defaults (not confirmed, no date, no confirmer). */
  function NewParticipant(id: ParticipantId, d: Details, age: int, createdBy: UserId): (p: Participant)
    ensures PaymentCoherent(p) && !p.paymentConfirmed
  {
    Participant(id, d.fullName, d.birthDate, age, d.cpf, d.district, d.church, createdBy, false, None, None)
  }

  /** The `data` of a store update: the three payment fields, or the
      details together with the recomputed age. */
  datatype Patch =
    | PaymentPatch(confirmed: bool, date: Option<Instant>, confirmer: Option<UserId>)
    | DetailsPatch(details: Details, age: int)

  function Apply(p: Participant, patch: Patch): Participant
  {
    match patch
    case PaymentPatch(confirmed, date, confirmer) =>
      p.(paymentConfirmed := confirmed, paymentConfirmationDate := date, confirmedByUserId := confirmer)
    case DetailsPatch(d, age) =>
      p.(fullName := d.fullName, birthDate := d.birthDate, age := age, cpf := d.cpf,
         district := d.district, church := d.church)
  }

  /** `findUnique` by id: a malformed id is an error, an unknown one is None. */
  function FindById(rows: map<ParticipantId, Participant>, id: ParticipantId): (r: Option<Participant>)
    requires IsObjectId(id)
    ensures r.Some? <==> id in rows
    ensures r.Some? ==> r.value == rows[id]
  {
    if id in rows then Some(rows[id]) else None
  }

  class ParticipantTable {
    var rows: map<ParticipantId, Participant>

    /** Every row is stored under its own well-formed id, and no two rows
        share a CPF (the store's uniqueness constraint). */
    ghost predicate Valid()
      reads this
    {
      (forall id :: id in rows ==> rows[id].id == id && IsObjectId(id)) &&
      CpfsUnique(rows)
    }

    constructor ()
      ensures Valid() && rows == map[]
    {
      rows := map[];
    }

    /** `create`: the caller has checked the CPF, and the id is one the
        store has not handed out. */
    method Insert(p: Participant)
      requires Valid()
      requires IsObjectId(p.id) && p.id !in rows
      requires !CpfExists(rows, p.cpf)
      modifies this
      ensures Valid()
      ensures rows == old(rows)[p.id := p]
    {
      rows := rows[p.id := p];
    }

    /** `update` by id: fails on a malformed id, on an unknown id, and when
        the new CPF belongs to another row; otherwise only that row changes. */
    method Update(id: ParticipantId, patch: Patch) returns (err: Option<StoreError>)
      requires Valid()
      modifies this
      ensures Valid()
      ensures !IsObjectId(id) ==> err == Some(MalformedId) && rows == old(rows)
      ensures IsObjectId(id) && id !in old(rows) ==> err == Some(RecordNotFound) && rows == old(rows)
      ensures id in old(rows) ==>
        var p := Apply(old(rows)[id], patch);
        if exists o :: o in old(rows) && o != id && old(rows)[o].cpf == p.cpf
        then err == Some(UniqueViolation) && rows == old(rows)
        else err == None && rows == old(rows)[id := p]
    {
      if !IsObjectId(id) {
        return Some(MalformedId);
      }
      if id !in rows {
        return Some(RecordNotFound);
      }
      var p := Apply(rows[id], patch);
      if exists o :: o in rows && o != id && rows[o].cpf == p.cpf {
        return Some(UniqueViolation);
      }
      rows := rows[id := p];
      err := None;
    }

    /** `delete` by id: fails on a malformed or unknown id; otherwise
        exactly that row goes. */
    method Delete(id: ParticipantId) returns (err: Option<StoreError>)
      requires Valid()
      modifies this
      ensures Valid()
      ensures !IsObjectId(id) ==> err == Some(MalformedId) && rows == old(rows)
      ensures IsObjectId(id) && id !in old(rows) ==> err == Some(RecordNotFound) && rows == old(rows)
      ensures id in old(rows) ==> err == None && rows == old(rows) - {id}
    {
      if !IsObjectId(id) {
        return Some(MalformedId);
      }
      if id !in rows {
        return Some(RecordNotFound);
      }
      rows := rows - {id};
      err := None;
    }
  }
}
