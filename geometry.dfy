/**
 * The static detector description the weighting potential reader consults,
 * and the thickness domain it derives from it.
 */
module Geometry {

  /** ROOT::Math::XYVector / XYPoint */
  datatype Vec2 = Vec2(x: real, y: real)

  /** ROOT::Math::XYZVector / XYZPoint */
  datatype Vec3 = Vec3(x: real, y: real, z: real)

  /** The sensor depth interval [lower, upper] a field is defined over (a std::pair). */
  datatype Domain = Domain(lower: real, upper: real)

  /** upper - lower */
  function Width(r: Domain): real {
    r.upper - r.lower
  }

  /** The parts of a DetectorModel the reader reads. */
  datatype DetectorModel = DetectorModel(
    sensorCenter: Vec3,
    sensorSize: Vec3,
    pixelSize: Vec2,
    implantSize: Vec2)

  /**
   * The thickness domain: it ends at the top face of the sensor and is as deep
   * as the sensor is thick.
   */
  function ThicknessDomain(m: DetectorModel): (dom: Domain)
    ensures dom.upper == m.sensorCenter.z + m.sensorSize.z / 2.0
    ensures dom.upper - dom.lower == m.sensorSize.z
    ensures dom.lower < dom.upper <==> m.sensorSize.z > 0.0
  {
    var sensorMaxZ := m.sensorCenter.z + m.sensorSize.z / 2.0;
    Domain(sensorMaxZ - m.sensorSize.z, sensorMaxZ)
  }

  /** The domain is centred on the sensor centre. */
  lemma ThicknessDomainCentred(m: DetectorModel)
    ensures var dom := ThicknessDomain(m);
      dom.lower == m.sensorCenter.z - m.sensorSize.z / 2.0 &&
      (dom.lower + dom.upper) / 2.0 == m.sensorCenter.z
  {
  }
}
