/** The runner under the lease guard: of all attempts at one lease, at most one ever changes the host. */
module LeasedRun {
  import ActionRunner
  import LeaseModel

  /** However guard calls interleave and fail, and whatever runners did with the host since it was made:
      only one attempt ever applied a step. */
  lemma {:induction false} OneAttemptMutates(host: ActionRunner.Host, a: nat, b: nat)
    requires host.Leased() && a in host.mutators && b in host.mutators
    ensures a == b
  {
    var finished := LeaseModel.Run(host.history).finished;
    var i :| 0 <= i < |finished| && finished[i].ok && finished[i].kind.BeforeStep? && finished[i].attempt == a;
    var j :| 0 <= j < |finished| && finished[j].ok && finished[j].kind.BeforeStep? && finished[j].attempt == b;
    LeaseModel.OneAttemptPerLease(host.history, i, j);
  }
}
