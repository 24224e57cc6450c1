/**
 * `Graphic.ExtendMode`: how samples outside the bounds of a graphic are read.
 * Only the two cases the modelled effects use are declared here.
 */
module ExtendModes {

  datatype ExtendMode = Zero | Stretch
}
