/**
 * The names the daemon correlates registrations and notifications by. The
 * daemon keeps no other link between the two, so the registration path and the
 * event path both resolve names through these functions.
 */
module Resolution {

  /** The daemon-facing user name of an account name. */
  function UserName(account: string): string {
    account
  }

  /**
   * The daemon-facing name of a user-facing mailbox name: for now the name
   * itself; a delegation-aware mapping would go here.
   */
  function MailboxName(userFacing: string): string {
    userFacing
  }
}
