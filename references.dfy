/** ewm.user: the user an event or comment refers to, and UserMapper's short projection. */
module Users {
  datatype User = User(id: int, name: string, email: string)

  datatype UserShortDto = UserShortDto(id: int, name: string)

  function MapModelToShortDto(user: User): UserShortDto
  {
    UserShortDto(user.id, user.name)
  }
}

/** ewm.locations: an event's place and LocationMapper's projection. */
module Locations {
  datatype Location = Location(lat: real, lon: real)

  datatype LocationDto = LocationDto(lat: real, lon: real)

  function MapModelToDto(location: Location): LocationDto
  {
    LocationDto(location.lat, location.lon)
  }

  /** LocationService.getOrSave: the stored location with the given coordinates. */
  function GetOrSave(dto: LocationDto): Location
  {
    Location(dto.lat, dto.lon)
  }
}
