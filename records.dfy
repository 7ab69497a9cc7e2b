/** The records the backend reads from its two providers, already fetched and
    decoded, and the car-number-to-driver reference table. Each fetch is a
    function parameter of the operation that uses it: `None` stands for a
    fetch that failed (timeout, transport error, non-200 status). */
module Records {
  import opened Wrappers
  import opened Text

  /** A race session from the secondary provider (OpenF1 `sessions`). */
  datatype Session = Session(
    sessionKey: int,
    dateStart: Option<string>,
    dateEnd: Option<string>,
    meetingName: Option<string>)

  /** One position update from OpenF1 `position`: `date` is the raw ISO text,
      compared as a string by the backend. */
  datatype PositionRecord = PositionRecord(driverNumber: int, date: string, position: int)

  /** One lap from OpenF1 `laps`; the duration is in milliseconds. A missing
      or null `lap_duration` is `None`. */
  datatype Lap = Lap(driverNumber: int, lapDuration: Option<int>, lapNumber: Option<int>)

  /** A parsed ISO 8601 timestamp: aware ones carry the UTC instant (seconds)
      and their UTC offset (seconds), naive ones only their wall-clock time. */
  datatype Stamp = Aware(instant: int, offset: int) | Naive(wall: int)

  /** Python's `datetime.fromisoformat`, which the backend delegates to:
      `None` where it raises ValueError. */
  type Parser = string -> Option<Stamp>

  /** Driver identity: display name, three-letter code and team. */
  datatype Identity = Identity(name: string, abbr: string, team: string)

  /** The car-number-to-identity reference table. */
  type Table = map<int, Identity>

  /** The identity the backend synthesizes for a car number it does not know. */
  function Placeholder(n: int): Identity {
    Identity("Driver " + IntToString(n), "D" + IntToString(n), "Unknown")
  }

  /** `DRIVER_INFO.get(n, placeholder)`. */
  function IdentityOf(table: Table, n: int): Identity {
    if n in table then table[n] else Placeholder(n)
  }

  /** The session list used: this year's, or last year's when this year's is empty or failed. */
  function SessionsOf(year: int, sessionsFor: int -> Option<seq<Session>>): Option<seq<Session>> {
    if NonEmpty(sessionsFor(year)) then sessionsFor(year) else sessionsFor(year - 1)
  }
}
