/** The failures a synchronisation can end with, and which of them a retry may cure. */
module SyncErrors {

  datatype SyncError =
    | WorkspaceLimit            // page, disk or transfer quota
    | UnsendableClosure         // one item does not fit in one page
    | SnapshotChanged           // advertised and current hashes differ
    | ProtocolViolation         // the receiver broke the protocol
    | RejectedNeeded            // needed identifiers outside the page's inventory
    | HttpStatus(code: int)
    | Transport                 // timeouts, resets, unreachable host
    | AsyncApply                // the receiver failed, or did not finish, applying
    | InvalidRelease            // more bytes released than are in use
    | MissingGraphHash          // a listed pair without a graph hash

  predicate RetryableStatus(code: int) {
    code in {408, 425, 429} || 500 <= code < 600
  }

  predicate Transient(e: SyncError) {
    match e
    case SnapshotChanged => true
    case Transport => true
    case HttpStatus(code) => RetryableStatus(code)
    case _ => false
  }
}
