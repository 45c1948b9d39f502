/** The financial constants the projection engine reads (src/utils/constants.js). */
module Constants {

  /** Corporate tax rate: 10 %. */
  const CorporateTax: real := 0.1

  /** Solar panel degradation in the first year: 1 %. */
  const FirstYearDegradation: real := 0.01

  /** Solar panel degradation in every later year: 0.4 %. */
  const SubsequentYearDegradation: real := 0.004
}
