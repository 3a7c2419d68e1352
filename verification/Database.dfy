/** The database as the services see it: four tables updated in place. */
module Database {
  import opened Tables

  class Postgres {
    var reservations: seq<Reservation>
    var orders: seq<Order>
    var inventory: map<nat, Stock>
    var events: seq<Event>

    constructor (inventory: map<nat, Stock>)
      ensures View() == Db([], [], inventory, [])
    {
      this.reservations, this.orders, this.inventory, this.events := [], [], inventory, [];
    }

    ghost function View(): Db
      reads this
    {
      Db(reservations, orders, inventory, events)
    }

    lemma Viewed()
      ensures View().reservations == reservations && View().inventory == inventory
    {
    }
  }
}
