/**
 * The partitions of one step together: each is run with the range that the even split gives it
 * (packages/core/src/partition-helpers.ts:109-132, packages/core/src/execution/chunk-step-executor.ts:168-194).
 */
module PartitionRuns {
  import opened Common
  import opened Environment
  import opened Partitions
  import opened ChunkStep
  import opened ChunkAccounting

  /** The step as its partition i of n sees it. */
  ghost function Partitioned(config: StepConfig, i: nat, n: nat, total: nat): StepConfig
    requires i < n
  {
    config.(partition := Some(PartitionArgs(i, n, Some(Share(i, n, total)))))
  }

  /** The items that the first k partitions deliver to their read phases, each against its own components. */
  ghost function ReadTogether(config: StepConfig, envs: seq<Env>, k: nat, total: nat): nat
    requires k <= |envs|
  {
    if k == 0 then 0 else
    ReadTogether(config, envs, k - 1, total)
    + RunStep(Partitioned(config, k - 1, |envs|, total), envs[k - 1]).env.tally.delivered
  }

  lemma OnePartition(config: StepConfig, i: nat, n: nat, total: nat, env: Env)
    requires i < n && env.tally == NO_TALLY
    ensures RunStep(Partitioned(config, i, n, total), env).env.tally.delivered
         <= Share(i, n, total).to - Share(i, n, total).from
  {
    SharesAbut(i, n, total);
    var partitioned := Partitioned(config, i, n, total);
    NoPlanNoReads(partitioned, env);
    hide RunStep, DefaultRange;
    if MakePlan(partitioned).Ok? {
      PartitionBounded(partitioned, env);
    }
  }

  /** A policy that does not compile ends the step before anything is read. */
  lemma NoPlanNoReads(config: StepConfig, env: Env)
    requires env.tally == NO_TALLY
    ensures MakePlan(config).Thrown? ==> RunStep(config, env).env.tally.delivered == 0
  {
  }

  lemma {:induction false} ReadWithinBudgets(config: StepConfig, envs: seq<Env>, k: nat, total: nat)
    requires k <= |envs| && |envs| > 0 && forall i :: 0 <= i < |envs| ==> envs[i].tally == NO_TALLY
    ensures ReadTogether(config, envs, k, total) <= Budgets(k, |envs|, total)
  {
    hide RunStep, DefaultRange;
    if k > 0 {
      ReadWithinBudgets(config, envs, k - 1, total);
      OnePartition(config, k - 1, |envs|, total, envs[k - 1]);
    }
  }

  /**
   * However the readers, writers and policies behave, n partitions together read at most the total.  Items
   * that a restart drains past are not reads in this sense.
   */
  lemma PartitionsReadAtMostTotal(config: StepConfig, envs: seq<Env>, total: nat)
    requires |envs| > 0 && forall i :: 0 <= i < |envs| ==> envs[i].tally == NO_TALLY
    ensures ReadTogether(config, envs, |envs|, total) <= total
  {
    hide RunStep, DefaultRange;
    ReadWithinBudgets(config, envs, |envs|, total);
    BudgetsAddUp(|envs|, total);
  }
}
