/** Types shared by every module of the model. */
module Common {
  datatype Option<+T> = None | Some(value: T)

  /** The HTTP exceptions the services throw. A throw inside a transaction rolls everything back. */
  datatype Error = BadRequest | Forbidden | NotFound | Conflict | ServerError

  datatype Result<+T> = Ok(value: T) | Err(error: Error)

  /** What a service method returns when only its success matters. */
  datatype Outcome = Done | Failed(error: Error)

  type UserId = string
  type AppId = string
  type TeamId = string
  type CallId = string
  type TxnId = nat // names a request between its read and its write
  type Time = int

  datatype ProgramType = ProgramA | ProgramB

  /** The eligibility rules. The first and the last two take a threshold from the call. */
  datatype Code =
    | TeamSizeMin | DeclarationPresent | AcademicEvidencePresent
    | TransferredSubjectsMax | ProfileSubjectsAverageMax

  datatype Role =
    | Student | Admin | CompanyOwner | CompanyEmployee
    | Mentor | Evaluator | ContentEditor | SuperAdmin

  datatype Actor = Actor(id: UserId, role: Role)

  predicate IsAdmin(role: Role) {
    role.Admin? || role.SuperAdmin?
  }

  predicate IsReviewer(role: Role) {
    role.Evaluator? || IsAdmin(role)
  }
}
