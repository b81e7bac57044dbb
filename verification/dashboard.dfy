/** The member's home screen: the two counters shown beside the balance. */
module Dashboard {
  import opened Seqs
  import opened Types

  /** `pendingCount`: how many reports await verification. */
  function PendingCount(reports: seq<Report>): (n: nat)
    ensures n == |IndicesWhere(reports, IsPendingReport)|
    ensures n <= |reports|
  {
    FilterLength(reports, IsPendingReport);
    |Filter(reports, IsPendingReport)|
  }

  /** `completedReports`: the completed reports, in their original order;
      the "Success" tile shows how many there are. */
  function CompletedReports(reports: seq<Report>): (r: seq<Report>)
    ensures forall x :: x in r ==> x in reports && x.status == Completed
    ensures forall x :: x in reports && x.status == Completed ==> x in r
    ensures IsSubsequence(r, reports)
    ensures |r| == |IndicesWhere(reports, IsCompletedReport)|
  {
    FilterKeepsOrder(reports, IsCompletedReport);
    FilterLength(reports, IsCompletedReport);
    Filter(reports, IsCompletedReport)
  }

  /** No report is counted by both tiles, and a rejected one by neither. */
  lemma TilesDisjoint(reports: seq<Report>, x: Report)
    ensures !(x in Filter(reports, IsPendingReport) && x in CompletedReports(reports))
    ensures x.status == Rejected ==> x !in Filter(reports, IsPendingReport) && x !in CompletedReports(reports)
  {
  }

  /** The two tiles together count at most every report. */
  lemma TilesFit(reports: seq<Report>)
    ensures PendingCount(reports) + |CompletedReports(reports)| <= |reports|
  {
    ExclusiveFiltersFit(reports, IsPendingReport, IsCompletedReport);
  }

  /** When no report is in the OPEN state (the state of tasks), pending,
      completed and rejected reports account for every report: what the
      tiles leave out is exactly the rejected ones. */
  lemma TilesMissOnlyRejected(reports: seq<Report>)
    requires forall i :: 0 <= i < |reports| ==> reports[i].status != Open
    ensures PendingCount(reports) + |CompletedReports(reports)| + |Filter(reports, IsRejectedReport)| == |reports|
  {
    PartitionLengths(reports, IsPendingReport, IsCompletedReport, IsRejectedReport);
  }
}
