/**
 * What a driver operation reports to the operator: the printed outcome of one
 * command, as a value instead of a line of text.
 */
module Reports {
  import opened Protocol

  datatype Report =
    | Status(ack: Ack)                          // the `parse_ack` line
    | IoError                                   // the exchange failed at the port
    | NoMatch                                   // 1:N verification: no enrolled finger matched
    | FingerTimeout                             // 1:N verification: no finger was presented in time
    | Match(uid: int, permission: int)          // 1:N verification: the matched user and its permission
    | TotalUsers(count: int)                    // the number of enrolled users
    | UserPermission(uid: int, permission: int) // the permission of the queried user
    | InvalidResponse                           // 1:N verification (Python): a short read
}
