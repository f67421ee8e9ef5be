/** Badge colour variants (src/utils/badgeVariants.ts). */
module BadgeVariants {
  import opened Types

  datatype BadgeVariant = Primary | Secondary | Success | Danger | Warning

  /** Severity thresholds: 4 and above is danger, 3 is warning, below 3 secondary. */
  function GetSeverityVariant(severity: int): (v: BadgeVariant)
    ensures v == Danger <==> severity >= 4
    ensures v == Warning <==> severity == 3
    ensures v == Secondary <==> severity < 3
  {
    if severity >= 4 then Danger
    else if severity >= 3 then Warning
    else Secondary
  }

  /** The order secondary < warning < danger used for severity badges. */
  function Urgency(v: BadgeVariant): nat
  {
    match v
    case Danger => 2
    case Warning => 1
    case _ => 0
  }

  /** A higher severity never gets a less urgent badge. */
  lemma SeverityVariantMonotone(a: int, b: int)
    requires a <= b
    ensures Urgency(GetSeverityVariant(a)) <= Urgency(GetSeverityVariant(b))
  {
  }

  /** Done is success, in progress is warning, backlog is secondary. */
  function GetStatusVariant(status: IssueStatus): (v: BadgeVariant)
    ensures v == Success <==> status == Done
    ensures v == Warning <==> status == InProgress
    ensures v == Secondary <==> status == Backlog
  {
    match status
    case Done => Success
    case InProgress => Warning
    case Backlog => Secondary
  }
}
