// Declarations shared by both variants (package solitaire.core).

module Core {

  /** The role of a pile: PileType.java declares exactly these three. */
  datatype PileType = Tableau | Foundation | Stock
}
