/** The mutable tables that both stores write. */
module Database {
  import opened Ledger

  class Tables {
    var now: Time
    var publicHashes: set<InfoHash>
    var captures: map<CaptureKey, Capture>
    var results: map<CaptureKey, Response>
    var attempts: map<CaptureKey, Attempt>
    var index: map<Identity, CaptureKey>
    var aliases: map<CaptureKey, CaptureKey>
    var budgets: map<BudgetKey, Budget>
    var tasks: map<TaskKey, WorkTask>
    var events: set<TaskKey>
    var applications: set<TaskKey>
    var nextBorn: nat

    function Fence(): Fences
      reads this
    {
      Fences(attempts, index, aliases)
    }

    function Work(): Queue
      reads this
    {
      Queue(tasks, events, applications, nextBorn)
    }

    /** The tables as one value. */
    function View(): Db
      reads this
    {
      Db(now, Evidence(publicHashes, captures, results), Fence(), budgets, Work())
    }

    constructor ()
      ensures View() == EMPTY
    {
      now, publicHashes, captures, results := 0, {}, map[], map[];
      attempts, index, aliases, budgets := map[], map[], map[], map[];
      tasks, events, applications, nextBorn := map[], {}, {}, 0;
    }
  }
}
