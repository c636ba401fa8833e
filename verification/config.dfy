/** The project constants of the liquid-level sensor (main.h): electrode count,
    submersion threshold, tank height in 24.8 fixed point, and the TRUE/FALSE
    flag encoding. */
module Config {

  /** NUMSENSORS: capacitive electrodes stacked bottom (index 0) to top. */
  const NumSensors: nat := 12
  /** SENSORMAX: full-level difference count of a calibrated electrode. */
  const SensorMax: int := 600
  /** SENSORLIMIT: a processed value above this marks an electrode submerged. */
  const SensorLimit: int := SensorMax / 2
  /** LEVELMM_MAX: tank height in millimetres. */
  const LevelMmMax: int := 153
  /** SENSORHEIGHT: height of one interior electrode, 24.8 fixed point, truncated. */
  const SensorHeight: int := (LevelMmMax * 256) / (NumSensors - 1)

  /** The flag encoding: TRUE is 1, FALSE is 0. */
  const True: int := 1
  const False: int := 0

  /** A main-loop test of the form `TRUE == flag`. */
  predicate IsTrue(flag: int) { flag == True }

  /** C truthiness, `if (flag)`: any non-zero value. */
  predicate IsSet(flag: int) { flag != False }

  /** The derived constants have the values the estimator relies on: the
      threshold is half the full-scale count, the electrode height is
      truncated so eleven heights fall short of the full height, and the
      snap-to-full window lies strictly between weight 21 and weight 22. */
  lemma DerivedConstants()
    ensures SensorLimit == 300
    ensures SensorHeight == 3560
    ensures (NumSensors - 1) * SensorHeight == 39160 < LevelMmMax * 256 == 39168
    ensures LevelMmMax * 256 - SensorHeight / 4 == 38278
    ensures 21 * (SensorHeight / 2) < LevelMmMax * 256 - SensorHeight / 4 < 22 * (SensorHeight / 2)
  {
  }

  /** `TRUE == flag` and C truthiness agree exactly on the two canonical
      values; every other non-zero byte is truthy but not TRUE. */
  lemma TrueTestIsStricter(flag: int)
    ensures IsTrue(flag) ==> IsSet(flag)
    ensures IsSet(flag) && !IsTrue(flag) <==> flag != 0 && flag != 1
  {
  }
}
