/**
 * The records the service returns. Their JSON fields are not modelled; each
 * record is projected onto its `Id`, and the value a Go variable of the type
 * starts with (its zero value) has identifier 0.
 */
module Records {

  datatype Entry = Entry(id: int)

  datatype Project = Project(id: int)

  datatype Invoice = Invoice(id: int)

  datatype Participant = Participant(id: int)

  const ZeroEntry: Entry := Entry(0)

  const ZeroProject: Project := Project(0)
}
