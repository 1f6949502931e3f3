/** Readings of the meter: quarter-hour intervals, their channels and their qualities. */
module Measurements {
  import opened Prelude

  // Instants are whole seconds since the epoch, energies are whole multiples of 10^-9 kWh.
  const QUARTER: int := 900
  const HOUR: int := 3600
  const DAY: int := 86400

  // In the order of the channel names, which is the order the database sorts by.
  datatype Channel = GridExport | GridImport

  datatype Quality = Valid | Missing | Invalid

  /** One value for each of the two channels. */
  datatype PerChannel<T> = PerChannel(gridExport: T, gridImport: T) {
    function Of(c: Channel): T {
      match c
      case GridExport => gridExport
      case GridImport => gridImport
    }

    function With(c: Channel, value: T): PerChannel<T> {
      match c
      case GridExport => this.(gridExport := value)
      case GridImport => this.(gridImport := value)
    }
  }

  /** A row of the measurements table; its primary key is the channel with the start. */
  datatype Row = Row(channel: Channel, start: int, end: int, value: Option<int>, quality: Quality) {
    function Id(): Key {
      Key(channel, start)
    }

    // What the constructor of an interval and the CHECK constraints of the table enforce.
    predicate Sound() {
      && end == start + QUARTER
      && (quality == Valid <==> value.Some?)
      && (value.Some? ==> 0 <= value.value)
    }
  }

  datatype Key = Key(channel: Channel, start: int)

  /** The order (start, channel) of keys, as an order of integers. */
  function Position(k: Key): int {
    2 * k.start + match k.channel case GridExport => 0 case GridImport => 1
  }

  function KeyAt(p: int): Key {
    Key(if p % 2 == 0 then GridExport else GridImport, p / 2)
  }

  lemma PositionIsOrder(a: Key, b: Key)
    ensures KeyAt(Position(a)) == a
    ensures Position(a) < Position(b) <==>
            a.start < b.start || (a.start == b.start && a.channel == GridExport && b.channel == GridImport)
  {
  }

  lemma KeyAtPosition(p: int)
    ensures Position(KeyAt(p)) == p
  {
  }
}
