/** Vocabulary shared by every component: identifiers, times, optional columns and
    the websocket frames a room fans out. */
module Types {
  /** A UUID; only equality and, for the message cursor, a total order matter. */
  type Id = nat

  /** A timestamp supplied by the database clock. */
  type Time = nat

  /** A nullable column or an optional argument. */
  datatype Option<+T> = None | Some(value: T)
}

module Frames {
  import opened Types

  datatype Location = Location(lat: real, lng: real, heading: real, speed: real, ts: Time)

  /** Server frames. `Info` stands for the frames that carry nothing about presence,
      emergencies or live locations: muted, room_renamed, owner_changed, destination,
      stops, chat, error and pong. */
  datatype Frame =
    | Snapshot(present: set<Id>, emergencies: set<Id>, locations: map<Id, Location>)
    | MemberPresent(user: Id)
    | MemberAbsent(user: Id)
    | Emergency(user: Id, active: bool)
    | LocationEvent(user: Id, loc: Location)
    | MemberJoined(user: Id)
    | MemberLeft(user: Id)
    | Kicked(user: Id, actor: Id)
    | RoomEnded
    | Info(tag: string)
}
