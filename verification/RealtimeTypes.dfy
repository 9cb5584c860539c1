/** The parsed GTFS-Realtime entities and the per-feed state of the manager
    (internal/gtfs/gtfs_manager.go, internal/gtfs/realtime.go). Times are integers. */
module RealtimeTypes {
  import opened Collections

  datatype TripDescriptor = TripDescriptor(id: string, routeID: string, duplicated: bool)

  /** A trip update; `body` stands for the stop time updates and the delay. */
  datatype Trip = Trip(id: TripDescriptor, body: string)

  datatype VehicleID = VehicleID(id: string, labelText: string, licensePlate: string)

  datatype Vehicle = Vehicle(id: Option<VehicleID>, trip: Option<TripDescriptor>, timestamp: Option<int>)

  datatype InformedEntity = InformedEntity(
    agencyID: Option<string>, routeID: Option<string>, trip: Option<TripDescriptor>, stopID: Option<string>)

  datatype Alert = Alert(id: string, entities: seq<InformedEntity>, body: string)

  /** The identity of a vehicle across updates: a real ID, else a label, else a license plate. */
  datatype VehicleKey = VehicleKey(id: string, labelText: string, licensePlate: string)

  /** The maps the manager keeps per feed ID. A missing feed reads as empty. */
  datatype Feeds = Feeds(
    trips: map<string, seq<Trip>>,
    unattributed: map<string, seq<Trip>>,
    vehicles: map<string, seq<Vehicle>>,
    alerts: map<string, seq<Alert>>,
    lastSeen: map<string, map<VehicleKey, int>>,
    stamps: map<string, nat>,
    lastUpdate: map<string, int>)
}
