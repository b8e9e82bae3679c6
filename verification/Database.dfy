/** The database that the services share: one mutable field per table. */
module Database {
  import opened Prelude
  import opened Tables

  class Database {
    var grants: seq<Grant>
    var charges: seq<Charge>
    var usages: seq<Usage>
    var recoveries: seq<Recovery>
    var refunds: seq<Refund>
    var adjustments: seq<Adjustment>
    var reservations: seq<Reservation>
    var nextId: nat
    var payments: map<nat, Payment>
    var money: seq<Money>
    var inbox: map<(string, string), Inbox>

    constructor ()
      ensures CreditTables() == Ledger([], [], [], [], [], [], [], 0)
      ensures Contents() == Store(Ledger([], [], [], [], [], [], [], 0), map[], [], map[])
    {
      grants, charges, usages, recoveries, refunds := [], [], [], [], [];
      adjustments, reservations, nextId := [], [], 0;
      payments, money, inbox := map[], [], map[];
    }

    function CreditTables(): Ledger
      reads this
    {
      Ledger(grants, charges, usages, recoveries, refunds, adjustments, reservations, nextId)
    }

    function Contents(): Store
      reads this
    {
      Store(CreditTables(), payments, money, inbox)
    }
  }
}
