/** The atom record of gochem, the part of it the modelled operations read
    or change. */
module Atoms {

  /** One atom: its PDB name, serial number, a free integer tag, residue
      name and number, chain, element symbol, occupancy, whether it is a
      `HETATM`, and its charge. */
  datatype Atom = Atom(name: string, id: int, tag: int, molName: string, molId: int, chain: string,
                       symbol: string, occupancy: real, het: bool, charge: real)
}
