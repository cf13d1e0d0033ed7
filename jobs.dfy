/** The AlphaFold3 job descriptor written for each valid row: one fixed
    protein chain and two RNA chains, with fixed seeds, dialect and version. */
module Jobs {

  datatype Molecule = Protein | Rna

  /** One entry of "sequences": the molecule kind, its chain ids and residues. */
  datatype Chain = Chain(molecule: Molecule, ids: seq<string>, sequence: string)

  datatype Descriptor = Descriptor(
    name: string,
    sequences: seq<Chain>,
    modelSeeds: seq<int>,
    dialect: string,
    version: int)

  /** The reference protein, chain A of every job. */
  const ProteinSequence: string := "IEKKKSFAKGMGVKSTLVSGSKVYMTTFAEGSDARLEKIVEGDSIRSVNEGEAFSAEMADKNAGYKIGNAKFSHPKGYAVVANNPLYTGPVQQDMLGLKETLEKRYFGESADGNDNICIQVIHNILDIEKILAEYITNAAYAVNNISGLDKDIIGFGKFSTVYTYDEFKDPEHHRAAFNNNDKLINAIKAQYDEFDNFLDNPRLGYFGQAFFSKEGRNYIINYGNECYDILALLSGLAHWVVANNEEESRISRTWLYNLDKNLDNEYISTLNYLYDRITNELTNSFSKNSAANVNYIAETLGINPAEFAEQYFRFSIMKEQKNLGFNITKLREVMLDRKDMSEIRKNHKVFDSIRTKVYTMMDFVIYRYYIEEDAKVAAANKSLPDNEKSLSEKDIFVINLRGSFNDDQKDALYYDEANRIWRKLENIMHNIKEFRGNKTREYKKKDAPRLPRILPAGRDVSAFSKLMYALTMFLDGKEINDLLTTLINKFDNIQSFLKVMPLIGVNAKFVEEYAFFKDSAKIADELRLIKSFARMGEPIADARRAMYIDAIRILGTNLSYDELKALADTFSLDENGNKLKKGKHGMRNFIINNVISNKRFHYLIRYGDPAHLHEIAKNEAVVKFVLGRIADIQKKQGQNGKNQIDRYYETCIGKDKGKSVSEKVDALTKIITGMNYDQFDKKRSVIEDTGRENAEREKFKKIISLYLTVIYHILKNIVNINARYVIGFHCVERDAQLYKEKGYDINLKKLEEKGFSSVTKLCAGIDETAPDKRKDVEKEMAERAKESIDSLESANPKLYANYIKYSDEKKAEEFTRQINREKAKTALNAYLRNTKWNVIIREDLLRIDNKTCTLFANKAVALEVARYVHAYINDIAEVNSYFQLYHYIMQRIIMNERYEKSSGKVSEYFDAVNDEKKYNDRLLKLLCVPFGYCIPRFKNLSIEALFDRNEAAKFDKEKKKVSGNS"

  const Dialect: string := "alphafold3"
  const Version: int := 1

  /** The fixed shape every written descriptor has: protein A, then RNA B,
      then RNA C; seeds [1]; dialect "alphafold3"; version 1. */
  predicate IsJob(d: Descriptor) {
    && |d.sequences| == 3
    && d.sequences[0] == Chain(Protein, ["A"], ProteinSequence)
    && d.sequences[1].molecule == Rna && d.sequences[1].ids == ["B"]
    && d.sequences[2].molecule == Rna && d.sequences[2].ids == ["C"]
    && d.modelSeeds == [1]
    && d.dialect == Dialect
    && d.version == Version
  }

  /** The target sequence a job carries (chain B). */
  function TargetOf(d: Descriptor): string
    requires IsJob(d)
  {
    d.sequences[1].sequence
  }

  /** The guide sequence a job carries (chain C). */
  function GuideOf(d: Descriptor): string
    requires IsJob(d)
  {
    d.sequences[2].sequence
  }

  /** Builds the job for one row. */
  function Build(name: string, target: string, guide: string): (d: Descriptor)
    ensures IsJob(d)
    ensures d.name == name && TargetOf(d) == target && GuideOf(d) == guide
  {
    Descriptor(
      name,
      [Chain(Protein, ["A"], ProteinSequence), Chain(Rna, ["B"], target), Chain(Rna, ["C"], guide)],
      [1],
      Dialect,
      Version)
  }

  /** Every descriptor of the fixed shape is the one Build makes from its
      name and its two RNA sequences. */
  lemma BuildComplete(d: Descriptor)
    requires IsJob(d)
    ensures Build(d.name, TargetOf(d), GuideOf(d)) == d
  {
    var b := Build(d.name, TargetOf(d), GuideOf(d));
    assert b.sequences == d.sequences;
  }

  /** Different rows give different jobs: name, target and guide are
      recovered from the descriptor. */
  lemma BuildInjective(n1: string, t1: string, g1: string, n2: string, t2: string, g2: string)
    requires Build(n1, t1, g1) == Build(n2, t2, g2)
    ensures n1 == n2 && t1 == t2 && g1 == g2
  {
  }
}
