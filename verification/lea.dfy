/** The records of the incident feed, one datatype per interface the
    feed declares. Optional or nullable fields are `Option`s; string fields whose
    absence the code treats like the empty string are plain strings. */
module Lea {
  import opened Base

  datatype LeaFunction = LeaFunction(id: string, shortname: string, name: string)

  datatype LeaResponse = LeaResponse(
    timestamp: int,
    basicresponse: Option<string>,
    freetext: Option<string>)

  datatype LeaPerson = LeaPerson(
    id: string,
    firstname: Option<string>,
    lastname: Option<string>,
    functions: seq<LeaFunction>,
    response: Option<LeaResponse>)

  /** Coordinates: `x` is the latitude, `y` the longitude. */
  datatype LeaLocation = LeaLocation(
    city: Option<string>,
    zipcode: Option<string>,
    street: Option<string>,
    housenumber: Option<string>,
    x: Option<real>,
    y: Option<real>,
    objectname: Option<string>,
    additionalinfo: Option<string>)

  /** The empty location object `{}`. */
  const NoLocation := LeaLocation(None, None, None, None, None, None, None, None)

  /** An organisational unit of an alarmed division (its `type`, `description`
      and `name`, the only fields the screen reads). */
  datatype OrgUnit = OrgUnit(unitType: string, description: string, name: string)

  datatype Division = Division(organizationalunits: seq<OrgUnit>)

  /** One incident. `alarmtime` is in epoch milliseconds, 0 when missing. */
  datatype Einsatz = Einsatz(
    id: string,
    eventtype: string,
    eventtypetext: string,
    additionalinformation: Option<string>,
    alarmtime: int,
    alarmedpersons: seq<LeaPerson>,
    additionaldivisions: seq<Division>,
    location: Option<LeaLocation>)
}
