/** The status badges the module stores attach to modules for display. */
module Display {
  import opened Wrappers

  datatype Badge = Badge(icon: string, displayClass: string, displayText: string)

  const MissingDependencies := Badge("warning", "text-negative", "Missing dependencies")
  const AllDependenciesAvailable := Badge("verified", "text-positive", "All dependencies available")
  const IssuesFound := Badge("warning", "text-negative", "Issues found")
  const Resolved := Badge("verified", "text-positive", "Resolved")
  const NotResolvedYet := Badge("inventory", "text-warning", "Not resolved yet")
  const AllGood := Badge("verified", "text-positive", "All good")

  /** `issues != undefined && issues.length > 0`. */
  predicate HasIssues(issues: Option<seq<string>>)
  {
    issues.Some? && |issues.value| > 0
  }

  /** The dependencies badge, chosen by whether some dependency is missing. */
  function DependenciesBadge(hasMissing: bool): Badge
  {
    if hasMissing then MissingDependencies else AllDependenciesAvailable
  }
}
