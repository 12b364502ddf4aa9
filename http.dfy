/** The result kinds a route handler returns, in place of HTTP responses. */
module Http {
  /** A document the submission route requires on the applicant's profile. */
  datatype Document = Resume | SkillsCertificate

  /** The name the submission route puts into its `missingDocuments` list. */
  function DocumentLabel(d: Document): string {
    match d
    case Resume => "resume"
    case SkillsCertificate => "GiatMARA Skills Certificate"
  }

  /** Which record a 404 reports as missing. */
  datatype Record = UserRecord | ProfileRecord | JobRecord | ApplicationRecord

  /** Why a request was refused with 400. */
  datatype Reason =
    | MissingDocuments(documents: seq<Document>)   // code MISSING_DOCUMENTS
    | AlreadyApplied
    | MissingRequiredFields
    | InvalidStatus
    | InvalidRole
    | UserAlreadyExists
    | InvalidDeadline

  datatype Error =
    | NotAuthenticated          // 401 'Not authenticated' / 'Unauthorized'
    | InvalidToken              // 401 'Invalid token'
    | Forbidden                 // 403
    | NotFound(record: Record)  // 404
    | BadRequest(reason: Reason) // 400
    | InternalError             // 500, the handlers' catch blocks

  /** A handler's answer: 200 with a value, 201 with a value, or an error. */
  datatype Reply<+T> = Ok(value: T) | Created(value: T) | Fail(error: Error)
}
