/** Accounts: a new user's empty balance, and top-ups. */
module BalanceUseCases {
  import opened Domain
  import opened Tables
  import opened Repositories
  import Submission

  class BalanceUseCase {
    const session: Session
    const repo: BalanceRepository

    constructor (session: Session)
      ensures this.session == session && repo.session == session
    {
      this.session := session;
      repo := new BalanceRepository(session);
    }

    /** Ids come from a sequence; one that is in use changes nothing. */
    method CreateUser(userId: int) returns (created: bool)
      modifies session
      ensures created == (userId !in old(session.balances))
      ensures session.Snapshot() == Submission.OpenAccount(old(session.Snapshot()), userId)
    {
      var balance := new Balance(userId, BalanceRow(0, 0));
      created := session.InsertBalance(balance);
    }

    /** The credits grow by the amount and nothing else changes, or the top-up is refused with its reason. */
    method TopUpUserCredits(userId: int, amount: int) returns (error: Option<LedgerError>, flushed: bool)
      requires repo.session == session
      modifies session
      ensures error == RefusalOf(old(session.balances), userId, amount)
      ensures session.Snapshot() == Submission.TopUp(old(session.Snapshot()), userId, amount)
      ensures error.None? && old(session.balances)[userId].ChecksHold() ==> flushed
      ensures flushed ==>
              userId in session.balances
              && session.balances[userId].credits == old(session.balances)[userId].credits + amount
    {
      var balance;
      balance, error := repo.TopUpUserCredits(userId, amount);
      if balance == null {
        return error, false;
      }
      flushed := session.FlushBalance(balance);
    }
  }
}
