/** The three sections of the remediation queue. */
module QueueSection {
  datatype Section = Ranked | Incomparable | NotCalculated

  function SectionName(section: Section): string {
    match section case Ranked => "ranked" case Incomparable => "incomparable" case NotCalculated => "not_calculated"
  }
}
