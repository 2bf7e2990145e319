/** Closed vocabularies shared by several services (`domain/enums.py`). */
module Domain {

  datatype StoryStatus =
    | Proposed | Planned | Blocked | Ready | InProgress | Implemented | Testing
    | Review | Certification | Certified | Rejected | RemediationRequired | Cancelled
}
