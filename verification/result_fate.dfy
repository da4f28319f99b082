/** How a check of a removed monitor can cost other monitors their results. */
module ResultFate {
  import opened Models
  import opened Storage
  import opened SchedulerModel
  import opened Accounting
  import BatchWriter

  /**
   * A check that ends after its monitor is gone leaves a result all the same, always when it could tell nothing and
   * otherwise until a resync notices; and the batch that result ends up in cannot land, whatever else it holds.
   */
  lemma GoneMonitorSinksItsBatch(s: Sys, e: Event, id: Id, v: Verdict, batch: seq<CheckResult>, io: bool)
    requires Handled(s, e) == Some((id, v)) && LeavesResult(s, id, v) && id !in s.store.monitors
    ensures var t, left := Next(s, e), ResultOf(s, e);
      && Submitted(t.log) == Submitted(s.log) + left && |left| == 1 && left[0].result.monitorId == id
      && (left[0].result in batch ==>
           !BatchWriter.Lands(t.store, batch, io) && Apply(t.store, InsertResults(batch)) == t.store)
  {
    EveryVerdictIsRecordedOnce(s, e);
    assert Next(s, e).store == s.store;
  }
}
