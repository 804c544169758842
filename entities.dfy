/** The record the service returns and the dashboard displays. */
module Entities {
  import opened Dates

  /** One ticketed concert. `artist` is the search keyword that found it, not
      necessarily the billed name; `date` travels as its ISO spelling. */
  datatype Event = Event(
    name: string,
    artist: string,
    url: string,
    city: string,
    country: string,
    countryCode: string,
    date: CalendarDate,
    id: string)
}
