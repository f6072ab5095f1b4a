/** One poll of the running controller: drain and tally under the lock, choose a target, apply it. */
module SteerPoll {
  import opened SteerTables
  import opened SteerController
  import opened PathShare
  import opened ShareControl

  method Poll(steer: Steer, control: ShareController, outcomes: seq<Outcome>)
    requires steer.Valid() && control.Valid() && |outcomes| == BUCKETS
    modifies steer.rateFlow, control`appliedPath0Share, control.classifyBucketPath, control.hardwarePath
    ensures steer.Valid() && control.Valid()
    ensures steer.State() == if steer.groupingEnabled then Drain(old(steer.State())) else old(steer.State())
    ensures control.State() ==
            if !steer.groupingEnabled || control.forcePath >= 0 then old(control.State())
            else ApplyShare(old(control.State()), TargetShare(Summarize(steer.State().flows)), outcomes)
    ensures KeepsMinimum(old(control.State()).software) && KeepsMinimum(old(control.State()).hardware) ==>
            KeepsMinimum(control.State().software) && KeepsMinimum(control.State().hardware)
  {
    if steer.groupingEnabled {
      ghost var c := control.State();
      var summary := steer.PollRates();
      var path0 := CalculateShare(summary);
      TargetRange(summary);
      CallKeepsMinimum(c, path0, outcomes);
      control.ApplyPathShare(path0, outcomes);
    }
  }
}
