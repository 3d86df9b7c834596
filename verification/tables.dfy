/** The database session: the three tables, and the row objects that transactions load, change in place and commit. */
module Tables {
  import opened Domain
  import opened Submission

  class Balance {
    const userId: int
    var credits: int
    var reserved: int

    constructor (userId: int, row: BalanceRow)
      ensures this.userId == userId && Row() == row
    {
      this.userId, credits, reserved := userId, row.credits, row.reserved;
    }

    function Row(): BalanceRow
      reads this
    {
      BalanceRow(credits, reserved)
    }
  }

  class Message {
    const id: nat
    const userId: int
    const recipient: string
    const body: string
    const cost: int
    const priority: Priority
    const idempotencyKey: nat
    const createdAt: real
    var status: MessageStatus
    var payment: PaymentStatus

    constructor (id: nat, row: MessageRow)
      ensures this.id == id && Row() == row
    {
      this.id := id;
      userId, recipient, body, cost := row.userId, row.recipient, row.body, row.cost;
      priority, idempotencyKey, createdAt := row.priority, row.idempotencyKey, row.createdAt;
      status, payment := row.status, row.payment;
    }

    function Row(): MessageRow
      reads this
    {
      MessageRow(userId, recipient, body, cost, priority, idempotencyKey, status, payment, createdAt)
    }
  }

  class DispatchJob {
    const id: nat
    const messageId: nat
    const userId: int
    const priority: Priority
    const createdAt: real
    var status: JobStatus
    var retryCount: nat
    var deliveryAttempts: nat
    var availableAt: real
    var lockedAt: Option<real>
    var lockedBy: Option<Holder>
    var publishedAt: Option<real>
    var completedAt: Option<real>
    var providerMessageId: Option<string>

    constructor (id: nat, row: JobRow)
      ensures this.id == id && Row() == row
    {
      this.id := id;
      messageId, userId, priority, createdAt := row.messageId, row.userId, row.priority, row.createdAt;
      status, retryCount, deliveryAttempts := row.status, row.retryCount, row.deliveryAttempts;
      availableAt, lockedAt, lockedBy := row.availableAt, row.lockedAt, row.lockedBy;
      publishedAt, completedAt, providerMessageId := row.publishedAt, row.completedAt, row.providerMessageId;
    }

    function Row(): JobRow
      reads this
    {
      JobRow(messageId, userId, priority, status, retryCount, deliveryAttempts, availableAt, lockedAt, lockedBy,
             publishedAt, completedAt, providerMessageId, createdAt)
    }
  }

  /** The integrity errors a flush can raise. */
  datatype Violation = UniqueViolation | ForeignKeyViolation

  /** None of the first n rows finds its key taken in the table as it stands when its turn comes. */
  predicate NoClash(messages: seq<MessageRow>, userId: int, rows: seq<MessageRow>, n: nat)
    requires n <= |rows|
  {
    forall i :: 0 <= i < n ==> KeyFree(messages + rows[..i], userId, rows[i].idempotencyKey)
  }

  predicate KeyFree(messages: seq<MessageRow>, userId: int, key: nat) {
    FindKey(messages, userId, key).None?
  }

  lemma NoClashNext(messages: seq<MessageRow>, userId: int, rows: seq<MessageRow>, n: nat)
    requires n < |rows| && NoClash(messages, userId, rows, n)
    ensures NoClash(messages, userId, rows, n + 1) <==> KeyFree(messages + rows[..n], userId, rows[n].idempotencyKey)
    ensures !NoClash(messages, userId, rows, n + 1) ==> !NoClash(messages, userId, rows, |rows|)
  {
  }

  class Session {
    var balances: map<int, BalanceRow>
    var messages: seq<MessageRow>
    var jobs: seq<JobRow>

    constructor ()
      ensures Snapshot() == Store(map[], [], [])
    {
      balances, messages, jobs := map[], [], [];
    }

    function Snapshot(): Store
      reads this
    {
      Store(balances, messages, jobs)
    }

    method SelectBalance(userId: int) returns (balance: Balance?)
      ensures (balance == null) == (userId !in balances)
      ensures balance != null ==> fresh(balance) && balance.userId == userId && balance.Row() == balances[userId]
    {
      if userId !in balances {
        return null;
      }
      balance := new Balance(userId, balances[userId]);
    }

    method SelectMessage(id: nat) returns (message: Message?)
      ensures (message == null) == (|messages| <= id)
      ensures message != null ==> fresh(message) && message.id == id && message.Row() == messages[id]
    {
      if |messages| <= id {
        return null;
      }
      message := new Message(id, messages[id]);
    }

    method SelectJob(id: nat) returns (job: DispatchJob?)
      ensures (job == null) == (|jobs| <= id)
      ensures job != null ==> fresh(job) && job.id == id && job.Row() == jobs[id]
    {
      if |jobs| <= id {
        return null;
      }
      job := new DispatchJob(id, jobs[id]);
    }

    /** Flush the loaded rows and commit, or roll back when the balance breaks a CHECK constraint. */
    method Commit(job: DispatchJob, message: Message, balance: Balance?) returns (committed: bool)
      requires job.id < |jobs| && message.id < |messages|
      modifies this
      ensures committed == (balance == null || balance.Row().ChecksHold())
      ensures Snapshot() ==
              if !committed then old(Snapshot())
              else Store(if balance == null then old(balances) else old(balances)[balance.userId := balance.Row()],
                         old(messages)[message.id := message.Row()],
                         old(jobs)[job.id := job.Row()])
    {
      if balance != null {
        if !balance.Row().ChecksHold() {
          return false;
        }
        balances := balances[balance.userId := balance.Row()];
      }
      messages := messages[message.id := message.Row()];
      jobs := jobs[job.id := job.Row()];
      return true;
    }

    /** A new user's balance; its id is taken if there is one already. */
    method InsertBalance(balance: Balance) returns (inserted: bool)
      modifies this`balances
      ensures inserted == (balance.userId !in old(balances))
      ensures balances == if inserted then old(balances)[balance.userId := balance.Row()] else old(balances)
    {
      inserted := balance.userId !in balances;
      if inserted {
        balances := balances[balance.userId := balance.Row()];
      }
    }

    /** Flush one balance; a broken CHECK constraint leaves the table as it was. */
    method FlushBalance(balance: Balance) returns (flushed: bool)
      modifies this`balances
      ensures flushed == balance.Row().ChecksHold()
      ensures balances == if flushed then old(balances)[balance.userId := balance.Row()] else old(balances)
    {
      flushed := balance.Row().ChecksHold();
      if flushed {
        balances := balances[balance.userId := balance.Row()];
      }
    }

    method InsertMessage(row: MessageRow) returns (inserted: bool)
      modifies this`messages
      ensures inserted == KeyFree(old(messages), row.userId, row.idempotencyKey)
      ensures messages == if inserted then old(messages) + [row] else old(messages)
    {
      inserted := FindKey(messages, row.userId, row.idempotencyKey).None?;
      if inserted {
        messages := messages + [row];
      }
    }

    /** Insert new message rows: unique keys are checked row by row, foreign keys when the statement ends. */
    method InsertMessages(userId: int, rows: seq<MessageRow>) returns (error: Option<Violation>)
      requires forall i :: 0 <= i < |rows| ==> rows[i].userId == userId
      modifies this`messages
      ensures error == Some(UniqueViolation) <==> !NoClash(old(messages), userId, rows, |rows|)
      ensures error != Some(UniqueViolation) ==>
              && messages == old(messages) + rows
              && (error == Some(ForeignKeyViolation) <==> rows != [] && userId !in balances)
    {
      var i := 0;
      while i < |rows|
        invariant 0 <= i <= |rows|
        invariant messages == old(messages) + rows[..i]
        invariant NoClash(old(messages), userId, rows, i)
      {
        NoClashNext(old(messages), userId, rows, i);
        var inserted := InsertMessage(rows[i]);
        if !inserted {
          return Some(UniqueViolation);
        }
        assert rows[..i + 1] == rows[..i] + [rows[i]];
        i := i + 1;
      }
      assert rows[..|rows|] == rows;
      error := if rows != [] && userId !in balances then Some(ForeignKeyViolation) else None;
    }

    method InsertJob(row: JobRow)
      modifies this`jobs
      ensures jobs == old(jobs) + [row]
    {
      jobs := jobs + [row];
    }

    method Rollback(saved: Store)
      modifies this
      ensures Snapshot() == saved
    {
      balances, messages, jobs := saved.balances, saved.messages, saved.jobs;
    }
  }
}
