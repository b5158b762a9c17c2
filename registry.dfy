/** The static sensor-model registry: each model enum a channel may report maps to
    a hardware model name and the ordered list of readings its channel carries. */
module Registry {
  import opened Wrappers

  // Sensor-type codes, the primary keys of the sensor_types collection.
  const Temperature := "TEMP"
  const Humidity := "HUM"
  const Ph := "PH"
  const Conductivity := "COND"
  const SoilHumidity := "SOILH"
  const Co2 := "CO2"
  const Lux := "LUX"
  const Pressure := "PRES"
  const Gas := "GAS"

  const SensorTypeIds: set<string> :=
    {Temperature, Humidity, Ph, Conductivity, SoilHumidity, Co2, Lux, Pressure, Gas}

  /** One reading a channel carries: its sensor type, the suffix appended to the
      physical sensor id to name the logical sensor, and the position of its value
      after the `id,modelEnum` prefix. */
  datatype Descriptor = Descriptor(sensorTypeId: string, idSuffix: string, index: nat)

  datatype SensorModel = SensorModel(name: string, types: seq<Descriptor>)

  /** The model enums the registry knows. */
  const RegisteredEnums: set<int> := {0, 1, 2, 3, 4, 5, 6, 7, 8, 100, 101, 102, 103, 104, 110}

  /** What every registry entry satisfies: at least one reading; descriptor `k`
      reads value `k`; type codes come from the fixed vocabulary; suffixes are
      pairwise distinct, and non-empty whenever the model has several readings. */
  predicate WellFormed(m: SensorModel)
  {
    && |m.types| >= 1
    && (forall k :: 0 <= k < |m.types| ==> m.types[k].index == k)
    && (forall k :: 0 <= k < |m.types| ==> m.types[k].sensorTypeId in SensorTypeIds)
    && (forall j, k :: 0 <= j < k < |m.types| ==> m.types[j].idSuffix != m.types[k].idSuffix)
    && (|m.types| > 1 ==> forall k :: 0 <= k < |m.types| ==> m.types[k].idSuffix != "")
  }

  function SingleValue(name: string, sensorTypeId: string): SensorModel
  {
    SensorModel(name, [Descriptor(sensorTypeId, "", 0)])
  }

  // The models with several readings per channel.
  const Sht30 := SensorModel("SHT30", [Descriptor(Temperature, "_T", 0), Descriptor(Humidity, "_H", 1)])
  const Bme680 := SensorModel("BME680", [Descriptor(Temperature, "_T", 0), Descriptor(Humidity, "_H", 1),
                                         Descriptor(Pressure, "_P", 2), Descriptor(Gas, "_G", 3)])
  const Co2Model := SensorModel("CO2", [Descriptor(Co2, "_CO2", 0), Descriptor(Temperature, "_T", 1),
                                        Descriptor(Humidity, "_H", 2)])
  const Bme280 := SensorModel("BME280", [Descriptor(Temperature, "_T", 0), Descriptor(Humidity, "_H", 1),
                                         Descriptor(Pressure, "_P", 2)])
  const Sht40 := SensorModel("SHT40", [Descriptor(Temperature, "_T", 0), Descriptor(Humidity, "_H", 1)])
  const Env4 := SensorModel("ENV4", [Descriptor(Humidity, "_H", 0), Descriptor(Temperature, "_T", 1),
                                     Descriptor(Pressure, "_P", 2), Descriptor(Lux, "_L", 3)])

  lemma Sht30WellFormed() ensures WellFormed(Sht30) {}
  lemma Bme680WellFormed() ensures WellFormed(Bme680) {}
  lemma Co2ModelWellFormed() ensures WellFormed(Co2Model) {}
  lemma Bme280WellFormed() ensures WellFormed(Bme280) {}
  lemma Sht40WellFormed() ensures WellFormed(Sht40) {}
  lemma Env4WellFormed() ensures WellFormed(Env4) {}

  /** `SENSOR_CONFIG`: the model each registered enum stands for. */
  const SensorConfig: map<int, SensorModel> := map[
    0 := SingleValue("N100K", Temperature),
    1 := SingleValue("N10K", Temperature),
    2 := SingleValue("HDS10", Humidity),
    3 := SingleValue("RTD", Temperature),
    4 := SingleValue("DS18B20", Temperature),
    5 := SingleValue("PH", Ph),
    6 := SingleValue("COND", Conductivity),
    7 := SingleValue("SOILH", SoilHumidity),
    8 := SingleValue("VEML7700", Lux),
    100 := Sht30,
    101 := Bme680,
    102 := Co2Model,
    103 := Bme280,
    104 := Sht40,
    110 := Env4]

  lemma SingleValueWellFormed(name: string, sensorTypeId: string)
    requires sensorTypeId in SensorTypeIds
    ensures WellFormed(SingleValue(name, sensorTypeId))
  {
  }

  /** Every entry of the registry is well formed. */
  lemma SensorConfigWellFormed(modelEnum: int)
    requires modelEnum in SensorConfig
    ensures WellFormed(SensorConfig[modelEnum])
  {
    var m := SensorConfig[modelEnum];
    if modelEnum == 100 {
      Sht30WellFormed();
    } else if modelEnum == 101 {
      Bme680WellFormed();
    } else if modelEnum == 102 {
      Co2ModelWellFormed();
    } else if modelEnum == 103 {
      Bme280WellFormed();
    } else if modelEnum == 104 {
      Sht40WellFormed();
    } else if modelEnum == 110 {
      Env4WellFormed();
    } else {
      assert m.types == [Descriptor(m.types[0].sensorTypeId, "", 0)] && m.types[0].sensorTypeId in SensorTypeIds;
    }
  }

  /** `SENSOR_CONFIG[modelEnum]`: the model an enum stands for, if registered. */
  function Lookup(modelEnum: int): (r: Option<SensorModel>)
    ensures r.Some? <==> modelEnum in RegisteredEnums
    ensures r.Some? ==> WellFormed(r.value)
  {
    if modelEnum in SensorConfig then (SensorConfigWellFormed(modelEnum); Some(SensorConfig[modelEnum])) else None
  }

  /** Two readings of one registered model never name the same logical sensor:
      the physical id followed by two different suffixes gives two different ids. */
  lemma DistinctSuffixesDistinctIds(m: SensorModel, sensorId: string, j: nat, k: nat)
    requires WellFormed(m)
    requires j < |m.types| && k < |m.types| && j != k
    ensures sensorId + m.types[j].idSuffix != sensorId + m.types[k].idSuffix
  {
    var a, b := sensorId + m.types[j].idSuffix, sensorId + m.types[k].idSuffix;
    assert a[|sensorId|..] == m.types[j].idSuffix;
    assert b[|sensorId|..] == m.types[k].idSuffix;
    assert m.types[j].idSuffix != m.types[k].idSuffix by {
      if j > k {
        assert m.types[k].idSuffix != m.types[j].idSuffix;
      }
    }
  }
}
