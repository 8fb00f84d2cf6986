/**
  The three lookup tables of the SKU generator (`self.route_mapping`,
  `self.routing_mapping`, `self.type_mapping`). They are Python dicts iterated
  in insertion order, so each is a sequence of (key, code) pairs, and where a
  key appears twice the later code wins.
 */
module Mappings {

  /** `route_mapping` */
  const RouteMapping: seq<(string, string)> := [
    ("Assemblage", "ASS"),
    ("Connecteurs", "CONN"),
    ("Borniers", "TERM"),
    ("Communication", "COMM"),
    ("Contrôleurs", "CTRL"),
    ("Alimentation", "POWER"),
    ("Moteurs", "MOTOR"),
    ("ASSEMBLAGE MÉCANIQUE", "ASS"),
    ("ASSEMBLAGE SOUDÉ", "WELD"),
    ("PIÈCES USINÉES", "MACH"),
    ("PIÈCES PLIÉES", "BEND"),
    ("PIÈCES DÉCOUPÉES LASER", "LASER"),
    ("BOULONNERIE", "BOLT"),
    ("PLASTIQUE", "PLAST")
  ]

  /** `routing_mapping` */
  const RoutingMapping: seq<(string, string)> := [
    ("Assemblage", "ASM"),
    ("Cosses, oeillets, fourchettes", "TERM"),
    ("Boitiers", "ENCL"),
    ("Fusibles", "FUSE"),
    ("Broches", "PIN"),
    ("Fil", "WIRE"),
    ("BOULONNERIE", "BOLT"),
    ("PIÈCES PLIÉES", "BEND"),
    ("ASSEMBLAGE MÉCANIQUE", "MECH"),
    ("COMPOSANTES MECANIQUES", "COMP"),
    ("PIÈCES DÉCOUPÉES LASER", "CUT"),
    ("PIÈCES USINÉES", "MILL"),
    ("PLASTIQUE (UHMW, LEXAN, ...)", "POLY")
  ]

  /** `type_mapping` */
  const TypeMapping: seq<(string, string)> := [
    ("Résistances", "RESIST"),
    ("Condensateurs", "CONDEN"),
    ("Inductances", "INDUCT"),
    ("Diodes", "DIODES"),
    ("Transistors", "TRANSI"),
    ("Circuits intégrés", "CIRCUI"),
    ("Connecteurs", "CONNEC"),
    ("Relais", "RELAIS"),
    ("Fusibles", "FUSIBL"),
    ("Accessoires de borniers", "BORNIE"),
    ("Cosses, oeillets, fourchettes", "COSSES"),
    ("Broches", "BROCHE"),
    ("Fil", "FILAGE"),
    ("Boitiers", "BOITIE"),
    ("Pièces Pliées", "PLIAGE"),
    ("PIÈCES PLIÉES", "PLIAGE"),
    ("Pièces Usinées", "USINER"),
    ("PIÈCES USINÉES", "USINER"),
    ("Pièces Découpées", "DECOUP"),
    ("PIÈCES DÉCOUPÉES LASER", "DECOUP"),
    ("Boulonnerie", "VISSER"),
    ("BOULONNERIE", "VISSER"),
    ("Vis M3", "VISSM3"),
    ("Vis M4", "VISSM4"),
    ("Vis M5", "VISSM5"),
    ("Vis M6", "VISSM6"),
    ("Vis M8", "VISSM8"),
    ("Boulon M10", "BOULM10"),
    ("Boulon M12", "BOULM12"),
    ("Assemblage Mécanique", "MONTER"),
    ("ASSEMBLAGE MÉCANIQUE", "MONTER"),
    ("Assemblage Final", "FINAL"),
    ("Sous-assemblage", "SOUSAS"),
    ("Plastique", "PLASTI"),
    ("PLASTIQUE", "PLASTI"),
    ("Aluminium", "ALUMI"),
    ("Acier", "ACIER"),
    ("Inox", "INOX"),
    ("Composantes Mécaniques", "COMPNT"),
    ("COMPOSANTES MECANIQUES", "COMPNT")
  ]
}
