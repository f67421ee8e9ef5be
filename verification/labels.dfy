/** Display labels for severities (src/utils/severityLabels.ts). */
module SeverityLabels {
  /** The label of a severity level; anything outside 1..5 is "Unknown". */
  function GetSeverityLabel(severity: int): (text: string)
    ensures 1 <= severity <= 5 <==> text != "Unknown"
    ensures text != ""
  {
    if severity == 5 then "Critical"
    else if severity == 4 then "High"
    else if severity == 3 then "Moderate"
    else if severity == 2 then "Low"
    else if severity == 1 then "Minor"
    else "Unknown"
  }

  datatype SeverityOption = SeverityOption(value: int, caption: string)

  /** The options of the severity filter, most severe first. */
  const SeverityOptions: seq<SeverityOption> := [
    SeverityOption(5, "Critical"),
    SeverityOption(4, "High"),
    SeverityOption(3, "Moderate"),
    SeverityOption(2, "Low"),
    SeverityOption(1, "Minor")
  ]

  /** The options list the levels 5 down to 1, each under its own label, never "Unknown". */
  lemma SeverityOptionsMatchLabels()
    ensures |SeverityOptions| == 5
    ensures forall k :: 0 <= k < |SeverityOptions| ==> SeverityOptions[k].value == 5 - k
    ensures forall k :: 0 <= k < |SeverityOptions| ==>
              SeverityOptions[k].caption == GetSeverityLabel(SeverityOptions[k].value) &&
              SeverityOptions[k].caption != "Unknown"
  {
  }

  /** The five known levels have five different labels. */
  lemma SeverityLabelsDistinct(a: int, b: int)
    requires 1 <= a <= 5 && 1 <= b <= 5 && a != b
    ensures GetSeverityLabel(a) != GetSeverityLabel(b)
  {
  }
}

/** Display labels for statuses (src/utils/statusLabels.ts). */
module StatusLabels {
  import opened Types

  /** The label of a status; total over the closed status enumeration. */
  function GetStatusLabel(status: IssueStatus): (text: string)
    ensures text != ""
  {
    match status
    case Backlog => "Backlog"
    case InProgress => "In Progress"
    case Done => "Done"
  }

  /** Different statuses are shown under different labels. */
  lemma StatusLabelsDistinct(a: IssueStatus, b: IssueStatus)
    requires a != b
    ensures GetStatusLabel(a) != GetStatusLabel(b)
  {
  }
}
