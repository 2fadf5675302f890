/** The fixed fleet: the vehicles offered for selection and their drivers. */
module Fleet {

  const VehicleIds: seq<string> := ["KA-01", "KA-02", "KA-03", "KA-04", "KA-05"]

  const DriverMapping: map<string, string> :=
    map["KA-01" := "Rishab", "KA-02" := "Priya", "KA-03" := "Arjun", "KA-04" := "Sneha", "KA-05" := "Ravi"]

  /** `driver_mapping[vehicle_selected]`: every vehicle the selector offers
      has a driver, and the mapping covers no other vehicle. */
  lemma EveryVehicleHasADriver()
    ensures forall i :: 0 <= i < |VehicleIds| ==> VehicleIds[i] in DriverMapping
    ensures forall v :: v in DriverMapping ==> v in VehicleIds
  {
  }
}
