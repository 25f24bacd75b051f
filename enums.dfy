/** The closed enumerations the calibration routine switches over (src/enums.rs, of which
    only the variants this model meets are listed). */
module Enums {

  /** Camera instruments. */
  datatype Instrument =
    | M20NavcamLeft
    | M20NavcamRight
    | M20FrontHazLeft
    | M20FrontHazRight
    | M20RearHazLeft
    | M20RearHazRight
    | M20MastcamZLeft
    | M20MastcamZRight

  /** The kinds of calibration file an instrument can have. */
  datatype CalFileType = FlatField | Mask

  /** A colour-filter-array reconstruction method. The routine only passes the profile's
      choice on to the debayering step, so the variants of sciimg's enumeration are not
      part of this model: a method is identified by its position in that enumeration. */
  type DebayerMethod = nat
}
