/**
 * The rank-0 task dispatcher and the worker protocol of the MPI training
 * driver: building the task list, the job name of a task, the
 * skip-if-finished rule, the coordinator's request loop and the worker loop.
 * Message passing is abstracted: the coordinator handles a sequence of
 * readiness messages (the ranks that sent them, in arrival order) and a
 * worker consumes the sequence of replies addressed to it.
 */
module MpiProcessing {
  import opened Wrappers
  import opened TrainingConfig

  // ---------------------------------------------------------------------------
  // Tasks
  // ---------------------------------------------------------------------------

  /** One fold as the fold generator yields it: (epochs, test subject, validation subject or None). */
  datatype FoldPair = FoldPair(nEpochs: int, testSubject: string, validationSubject: Option<string>)

  /** The arguments `split_tasks` passes to the fold generator for one configuration. */
  datatype PairRequest = PairRequest(
    testSubjects: seq<string>,
    validationSubjects: Option<seq<string>>,
    subjectList: seq<string>,
    doShuffle: bool,
    paramEpoch: int,
    isOuter: bool)

  /** The fold generator, an external deterministic collaborator. */
  type FoldGenerator = PairRequest -> seq<FoldPair>

  /** A (config, epochs, test subject, validation subject) task. */
  datatype Task = Task(config: Config, nEpochs: int, testSubject: string, validationSubject: Option<string>)

  function FoldOf(t: Task): FoldPair {
    FoldPair(t.nEpochs, t.testSubject, t.validationSubject)
  }

  /** The generator call made for one configuration; an outer run passes None as the validation list. */
  function RequestFor(config: Config, isOuter: bool): PairRequest {
    PairRequest(
      config.testSubjects,
      if isOuter then None else Some(config.validationSubjects),
      config.subjectList,
      config.shuffleTheFolds,
      config.epochs,
      isOuter)
  }

  /** The tasks of one configuration: its generated folds with the configuration attached. */
  function TasksOfConfig(config: Config, isOuter: bool, gen: FoldGenerator): (ts: seq<Task>)
    ensures |ts| == |gen(RequestFor(config, isOuter))|
    ensures forall k :: 0 <= k < |ts| ==>
      ts[k].config == config && FoldOf(ts[k]) == gen(RequestFor(config, isOuter))[k]
  {
    var folds := gen(RequestFor(config, isOuter));
    seq(|folds|, k requires 0 <= k < |folds| =>
      Task(config, folds[k].nEpochs, folds[k].testSubject, folds[k].validationSubject))
  }

  /** The whole task list: the tasks of each configuration, in configuration order. */
  function AllTasks(configs: seq<Config>, isOuter: bool, gen: FoldGenerator): seq<Task>
    decreases |configs|
  {
    if configs == [] then []
    else AllTasks(configs[..|configs| - 1], isOuter, gen)
         + TasksOfConfig(configs[|configs| - 1], isOuter, gen)
  }

  /** The sum of the fold counts of the configurations. */
  function FoldCount(configs: seq<Config>, isOuter: bool, gen: FoldGenerator): nat
    decreases |configs|
  {
    if configs == [] then 0
    else FoldCount(configs[..|configs| - 1], isOuter, gen) + |gen(RequestFor(configs[|configs| - 1], isOuter))|
  }

  /** `split_tasks`: extends the task list configuration by configuration; `nProc` is not used. */
  method SplitTasks(configs: seq<Config>, nProc: int, isOuter: bool, gen: FoldGenerator)
    returns (tasks: seq<Task>)
    ensures tasks == AllTasks(configs, isOuter, gen)
  {
    tasks := [];
    for i := 0 to |configs|
      invariant tasks == AllTasks(configs[..i], isOuter, gen)
    {
      var folds := gen(RequestFor(configs[i], isOuter));
      tasks := tasks + seq(|folds|, k requires 0 <= k < |folds| =>
        Task(configs[i], folds[k].nEpochs, folds[k].testSubject, folds[k].validationSubject));
      assert configs[..i + 1][..i] == configs[..i];
    }
    assert configs[..|configs|] == configs;
  }

  lemma {:induction false} AllTasksLength(configs: seq<Config>, isOuter: bool, gen: FoldGenerator)
    ensures |AllTasks(configs, isOuter, gen)| == FoldCount(configs, isOuter, gen)
    decreases |configs|
  {
    if configs != [] {
      AllTasksLength(configs[..|configs| - 1], isOuter, gen);
    }
  }

  /** The task list of a concatenation of configuration lists is the concatenation of their task lists. */
  lemma {:induction false} AllTasksConcat(a: seq<Config>, b: seq<Config>, isOuter: bool, gen: FoldGenerator)
    ensures AllTasks(a + b, isOuter, gen) == AllTasks(a, isOuter, gen) + AllTasks(b, isOuter, gen)
    decreases |b|
  {
    if b == [] {
      assert a + b == a;
    } else {
      var b', c := b[..|b| - 1], b[|b| - 1];
      assert (a + b)[..|a + b| - 1] == a + b';
      assert (a + b)[|a + b| - 1] == c;
      AllTasksConcat(a, b', isOuter, gen);
      var ta, tb', tc := AllTasks(a, isOuter, gen), AllTasks(b', isOuter, gen), TasksOfConfig(c, isOuter, gen);
      assert AllTasks(a + b, isOuter, gen) == (ta + tb') + tc;
      assert AllTasks(b, isOuter, gen) == tb' + tc;
      assert (ta + tb') + tc == ta + (tb' + tc);
    }
  }

  /** Every task comes from one of the configurations and one of the folds generated for it. */
  lemma {:induction false} AllTasksOrigin(configs: seq<Config>, isOuter: bool, gen: FoldGenerator, t: Task)
    requires t in AllTasks(configs, isOuter, gen)
    ensures t.config in configs && FoldOf(t) in gen(RequestFor(t.config, isOuter))
    decreases |configs|
  {
    var init := configs[..|configs| - 1];
    var last := configs[|configs| - 1];
    if t in AllTasks(init, isOuter, gen) {
      AllTasksOrigin(init, isOuter, gen, t);
      assert t.config in configs by { assert forall c :: c in init ==> c in configs; }
    } else {
      var ts := TasksOfConfig(last, isOuter, gen);
      var k :| 0 <= k < |ts| && ts[k] == t;
    }
  }

  // ---------------------------------------------------------------------------
  // Job names and the skip-if-finished rule of run_training
  // ---------------------------------------------------------------------------

  /** How an f-string renders a subject that may be None. */
  function SubjectText(v: Option<string>): string {
    match v
    case Some(s) => s
    case None => "None"
  }

  /**
   * The job name of a task: `{job}_test_{t}` (outer) or `{job}_test_{t}_sub_{v}`
   * (inner), so an inner name extends the outer name of its test subject.
   */
  function JobName(base: string, testSubject: string, validationSubject: Option<string>, isOuter: bool): (r: string)
    ensures var outer := base + "_test_" + testSubject;
      && |outer| <= |r| && r[..|outer|] == outer
      && (isOuter <==> |r| == |outer|)
      && (!isOuter ==> r[|outer|..] == "_sub_" + SubjectText(validationSubject))
  {
    if isOuter then base + "_test_" + testSubject
    else base + "_test_" + testSubject + "_sub_" + SubjectText(validationSubject)
  }

  /** With the base name fixed, outer job names tell test subjects apart. */
  lemma OuterJobNameInjective(base: string, t1: string, t2: string, v1: Option<string>, v2: Option<string>)
    requires JobName(base, t1, v1, true) == JobName(base, t2, v2, true)
    ensures t1 == t2
  {
    var p := base + "_test_";
    assert t1 == (p + t1)[|p|..];
    assert t2 == (p + t2)[|p|..];
  }

  /** With the base name and the test subject fixed, inner job names tell validation subjects apart. */
  lemma InnerJobNameInjective(base: string, t: string, v1: Option<string>, v2: Option<string>)
    requires JobName(base, t, v1, false) == JobName(base, t, v2, false)
    ensures SubjectText(v1) == SubjectText(v2)
  {
    var p := base + "_test_" + t + "_sub_";
    assert SubjectText(v1) == (p + SubjectText(v1))[|p|..];
    assert SubjectText(v2) == (p + SubjectText(v2))[|p|..];
  }

  /** Plain concatenation is not injective: different tasks can share one job name. */
  lemma InnerJobNamesCanCollide()
    ensures JobName("c", "A_sub_B", Some("C"), false) == JobName("c", "A", Some("B_sub_C"), false)
  {
  }

  /** A run log file is `{output_path}/logs/{job_name}.log`: it is keyed by both. */
  type LogKey = (string, string)

  /** The `is_finished` field of every run log, keyed by (output path, job name). */
  type FinishedLog = map<LogKey, bool>

  predicate IsFinished(log: FinishedLog, key: LogKey) {
    key in log && log[key]
  }

  function TaskKey(task: Task, isOuter: bool): LogKey {
    (task.config.outputPath, JobName(task.config.jobName, task.testSubject, task.validationSubject, isOuter))
  }

  /** The log after `run_training`, and whether it invoked training (`subject_loop`). */
  datatype TrainingStep = TrainingStep(log: FinishedLog, trained: bool)

  /**
   * `run_training`: returns at once when the task's log says it is finished;
   * otherwise trains and then writes `is_finished = True` (under the lock).
   */
  function RunTraining(log: FinishedLog, task: Task, isOuter: bool): (r: TrainingStep)
    ensures r.trained <==> !IsFinished(log, TaskKey(task, isOuter))
    ensures IsFinished(r.log, TaskKey(task, isOuter))
    ensures !r.trained ==> r.log == log
    ensures r.log.Keys == log.Keys + {TaskKey(task, isOuter)}
    ensures forall k :: k in log && k != TaskKey(task, isOuter) ==> r.log[k] == log[k]
  {
    var key := TaskKey(task, isOuter);
    if key in log && log[key] then TrainingStep(log, false)
    else TrainingStep(log[key := true], true)
  }

  /** How `run_training` ends when `subject_loop` may raise: it returns, or the exception leaves it. */
  datatype TrainingOutcome = Returned(step: TrainingStep) | Raised(log: FinishedLog)

  /**
   * `run_training` with the outcome of `subject_loop` as a parameter: `raises`
   * says whether it raises. The exception leaves before `write_log`, so the
   * log is unchanged; a task already finished returns before training.
   */
  function RunTrainingOutcome(log: FinishedLog, task: Task, isOuter: bool, raises: bool): (r: TrainingOutcome)
    ensures r.Raised? <==> raises && !IsFinished(log, TaskKey(task, isOuter))
    ensures r.Raised? ==> r.log == log
    ensures r.Returned? ==> r.step == RunTraining(log, task, isOuter)
  {
    var key := TaskKey(task, isOuter);
    if key in log && log[key] then Returned(TrainingStep(log, false))
    else if raises then Raised(log)
    else Returned(TrainingStep(log[key := true], true))
  }

  /**
   * A task whose training raised stays unfinished, so the next run trains it,
   * and once that run returns the task is finished.
   */
  lemma RaisedTaskIsRetrained(log: FinishedLog, task: Task, isOuter: bool)
    requires !IsFinished(log, TaskKey(task, isOuter))
    ensures var crashed := RunTrainingOutcome(log, task, isOuter, true);
      && crashed.Raised? && !IsFinished(crashed.log, TaskKey(task, isOuter))
      && var rerun := RunTrainingOutcome(crashed.log, task, isOuter, false);
         rerun.Returned? && rerun.step.trained && IsFinished(rerun.step.log, TaskKey(task, isOuter))
  {
  }

  /** A second `run_training` of the same task trains nothing and changes nothing. */
  lemma RunTrainingIdempotent(log: FinishedLog, task: Task, isOuter: bool)
    ensures var once := RunTraining(log, task, isOuter);
      RunTraining(once.log, task, isOuter) == TrainingStep(once.log, false)
  {
  }

  /**
   * The intended rule for a fold skipped because a dataset was empty: its run
   * log stays unfinished, so a later run retries it. `usable` is whether the
   * fold's datasets allowed training; `run_training` itself never sees it.
   */
  function RunTrainingIntended(log: FinishedLog, task: Task, isOuter: bool, usable: bool): (r: TrainingStep)
    ensures r.trained <==> !IsFinished(log, TaskKey(task, isOuter))
    ensures IsFinished(r.log, TaskKey(task, isOuter)) <==> IsFinished(log, TaskKey(task, isOuter)) || usable
    ensures !usable ==> r.log == log
    ensures usable ==> r == RunTraining(log, task, isOuter)
  {
    var key := TaskKey(task, isOuter);
    if key in log && log[key] then TrainingStep(log, false)
    else if usable then TrainingStep(log[key := true], true)
    else TrainingStep(log, true)
  }

  /**
   * A fold whose datasets were unusable: `run_training` records it as finished,
   * so no later run retries it; under the intended rule it stays unfinished
   * and the next run trains it again.
   */
  lemma SkippedFoldMarkedFinished(log: FinishedLog, task: Task, isOuter: bool)
    requires !IsFinished(log, TaskKey(task, isOuter))
    ensures var asWritten := RunTraining(log, task, isOuter);
      && IsFinished(asWritten.log, TaskKey(task, isOuter))
      && !RunTraining(asWritten.log, task, isOuter).trained
    ensures var intended := RunTrainingIntended(log, task, isOuter, false);
      && !IsFinished(intended.log, TaskKey(task, isOuter))
      && RunTrainingIntended(intended.log, task, isOuter, true).trained
  {
  }

  // ---------------------------------------------------------------------------
  // The worker loop
  // ---------------------------------------------------------------------------

  /** What a worker's run did: the final log and the tasks it actually trained, in order. */
  datatype WorkerRun = WorkerRun(log: FinishedLog, trained: seq<Task>)

  /** `run_training` applied to each task in turn. */
  function RunAll(log: FinishedLog, tasks: seq<Task>, isOuter: bool): WorkerRun
    decreases |tasks|
  {
    if tasks == [] then WorkerRun(log, [])
    else Advance(RunAll(log, tasks[..|tasks| - 1], isOuter), tasks[|tasks| - 1], isOuter)
  }

  /** A run extended by `run_training` on one more task. */
  function Advance(before: WorkerRun, task: Task, isOuter: bool): WorkerRun {
    var step := RunTraining(before.log, task, isOuter);
    WorkerRun(step.log, before.trained + if step.trained then [task] else [])
  }

  /** One more task: `run_training` on the log the earlier tasks left. */
  lemma RunAllSnoc(log: FinishedLog, tasks: seq<Task>, task: Task, isOuter: bool)
    ensures RunAll(log, tasks + [task], isOuter) == Advance(RunAll(log, tasks, isOuter), task, isOuter)
  {
    assert (tasks + [task])[..|tasks|] == tasks;
  }

  /** The index of the first falsy reply (`False`), or the number of replies if there is none. */
  function FirstStop(replies: seq<Option<Task>>): (k: nat)
    ensures k <= |replies|
    ensures forall i :: 0 <= i < k ==> replies[i].Some?
    ensures k < |replies| ==> replies[k].None?
  {
    if replies == [] || replies[0].None? then 0 else 1 + FirstStop(replies[1..])
  }

  /**
   * The worker branch of `main`: announce readiness, then run each task received
   * and announce again, until the first `False`. If the replies run out before
   * that, the worker is left waiting (`stopped` is false). The replies are an
   * input here, so the tasks are run by `TrainAll` once they are all collected:
   * the announcements and the log do not depend on that order.
   */
  method WorkerLoop(rank: int, isOuter: bool, replies: seq<Option<Task>>, log: FinishedLog)
    returns (announced: seq<int>, handled: seq<Task>, run: WorkerRun, stopped: bool)
    ensures |handled| == FirstStop(replies)
    ensures forall i :: 0 <= i < |handled| ==> replies[i] == Some(handled[i])
    ensures |announced| == |handled| + 1 && forall i :: 0 <= i < |announced| ==> announced[i] == rank
    ensures stopped <==> FirstStop(replies) < |replies|
    ensures run == RunAll(log, handled, isOuter)
  {
    announced := [rank];
    handled := [];
    var received := 0;
    while received < |replies| && replies[received].Some?
      invariant 0 <= received <= |replies|
      invariant |handled| == received
      invariant forall i :: 0 <= i < received ==> replies[i] == Some(handled[i])
      invariant |announced| == received + 1 && forall i :: 0 <= i < |announced| ==> announced[i] == rank
      decreases |replies| - received
    {
      var task := replies[received].value;
      handled := handled + [task];
      announced := announced + [rank];
      received := received + 1;
    }
    stopped := received < |replies|;
    run := TrainAll(log, handled, isOuter);
    FirstStopAt(replies, received);
  }

  /** `run_training` on each task in turn, as the worker does once per task received. */
  method TrainAll(log: FinishedLog, tasks: seq<Task>, isOuter: bool) returns (run: WorkerRun)
    ensures run == RunAll(log, tasks, isOuter)
  {
    run := WorkerRun(log, []);
    var i := 0;
    while i < |tasks|
      invariant 0 <= i <= |tasks|
      invariant run == RunAll(log, tasks[..i], isOuter)
    {
      assert tasks[..i + 1] == tasks[..i] + [tasks[i]];
      run := TrainNext(log, tasks[..i], run, tasks[i], isOuter);
      i := i + 1;
    }
    assert tasks[..i] == tasks;
  }

  /** One iteration of the worker loop: `run_training` on the task just received. */
  method TrainNext(ghost log: FinishedLog, ghost handled: seq<Task>, run: WorkerRun, task: Task, isOuter: bool)
    returns (next: WorkerRun)
    requires run == RunAll(log, handled, isOuter)
    ensures next == RunAll(log, handled + [task], isOuter)
  {
    RunAllSnoc(log, handled, task, isOuter);
    next := Advance(run, task, isOuter);
  }

  /** The first falsy reply is at k when every reply before k is a task and the one at k (if any) is not. */
  lemma {:induction false} FirstStopAt(replies: seq<Option<Task>>, k: nat)
    requires k <= |replies|
    requires forall i :: 0 <= i < k ==> replies[i].Some?
    requires k < |replies| ==> replies[k].None?
    ensures FirstStop(replies) == k
    decreases k
  {
    if k > 0 {
      FirstStopAt(replies[1..], k - 1);
    }
  }

  /** A run keeps every finished job finished and finishes every task it was given. */
  lemma {:induction false} RunAllFinishes(log: FinishedLog, tasks: seq<Task>, isOuter: bool)
    ensures forall k :: IsFinished(log, k) ==> IsFinished(RunAll(log, tasks, isOuter).log, k)
    ensures forall t :: t in tasks ==> IsFinished(RunAll(log, tasks, isOuter).log, TaskKey(t, isOuter))
    decreases |tasks|
  {
    if tasks != [] {
      var init := tasks[..|tasks| - 1];
      RunAllFinishes(log, init, isOuter);
      forall t | t in tasks
        ensures IsFinished(RunAll(log, tasks, isOuter).log, TaskKey(t, isOuter))
      {
        if t != tasks[|tasks| - 1] {
          var i :| 0 <= i < |tasks| && tasks[i] == t;
          assert t in init by { assert init[i] == t; }
        }
      }
    }
  }

  /** A run over tasks whose jobs are all finished trains nothing and leaves the log as it was. */
  lemma {:induction false} RunAllSkipsFinished(log: FinishedLog, tasks: seq<Task>, isOuter: bool)
    requires forall t :: t in tasks ==> IsFinished(log, TaskKey(t, isOuter))
    ensures RunAll(log, tasks, isOuter) == WorkerRun(log, [])
    decreases |tasks|
  {
    if tasks != [] {
      var init := tasks[..|tasks| - 1];
      assert forall t :: t in init ==> t in tasks;
      RunAllSkipsFinished(log, init, isOuter);
    }
  }

  /** Re-running the same tasks over the log a run left trains nothing (fleet restart). */
  lemma RerunTrainsNothing(log: FinishedLog, tasks: seq<Task>, isOuter: bool)
    ensures var first := RunAll(log, tasks, isOuter);
      RunAll(first.log, tasks, isOuter) == WorkerRun(first.log, [])
  {
    RunAllFinishes(log, tasks, isOuter);
    RunAllSkipsFinished(RunAll(log, tasks, isOuter).log, tasks, isOuter);
  }

  /** Every trained task is one of `tasks` whose job was unfinished in `log`. */
  predicate TrainedUnfinished(log: FinishedLog, tasks: seq<Task>, trained: seq<Task>, isOuter: bool) {
    forall t :: t in trained ==> t in tasks && !IsFinished(log, TaskKey(t, isOuter))
  }

  /** No two trained tasks share a job (output path and job name). */
  predicate DistinctJobs(trained: seq<Task>, isOuter: bool) {
    forall i, j :: 0 <= i < j < |trained| ==> TaskKey(trained[i], isOuter) != TaskKey(trained[j], isOuter)
  }

  /** A run trains only given tasks whose job was unfinished, and never trains one job twice. */
  lemma {:induction false} RunAllTrainsEachJobOnce(log: FinishedLog, tasks: seq<Task>, isOuter: bool)
    ensures TrainedUnfinished(log, tasks, RunAll(log, tasks, isOuter).trained, isOuter)
    ensures DistinctJobs(RunAll(log, tasks, isOuter).trained, isOuter)
    decreases |tasks|
  {
    if tasks != [] {
      var init := tasks[..|tasks| - 1];
      var last := tasks[|tasks| - 1];
      var before := RunAll(log, init, isOuter);
      RunAllTrainsEachJobOnce(log, init, isOuter);
      RunAllFinishes(log, init, isOuter);
      assert forall t :: t in init ==> t in tasks;
      var step := RunTraining(before.log, last, isOuter);
      if step.trained {
        forall i | 0 <= i < |before.trained|
          ensures TaskKey(before.trained[i], isOuter) != TaskKey(last, isOuter)
        {
          assert before.trained[i] in init;
        }
        DistinctJobsSnoc(before.trained, last, isOuter);
      }
    }
  }

  lemma DistinctJobsSnoc(trained: seq<Task>, t: Task, isOuter: bool)
    requires DistinctJobs(trained, isOuter)
    requires forall i :: 0 <= i < |trained| ==> TaskKey(trained[i], isOuter) != TaskKey(t, isOuter)
    ensures DistinctJobs(trained + [t], isOuter)
  {
  }

  // ---------------------------------------------------------------------------
  // The coordinator
  // ---------------------------------------------------------------------------

  function Reversed<T>(s: seq<T>): (r: seq<T>)
    ensures |r| == |s|
    ensures forall i :: 0 <= i < |s| ==> r[i] == s[|s| - 1 - i]
  {
    if s == [] then [] else [s[|s| - 1]] + Reversed(s[..|s| - 1])
  }

  lemma {:induction false} ReversedPermutes<T>(s: seq<T>)
    ensures multiset(Reversed(s)) == multiset(s)
    decreases |s|
  {
    if s != [] {
      ReversedPermutes(s[..|s| - 1]);
      assert s == s[..|s| - 1] + [s[|s| - 1]];
    }
  }

  /** True when every worker rank 1 .. nProc-1 occurs in `ranks`. */
  predicate AllWorkersIn(ranks: seq<int>, nProc: int) {
    forall r :: 1 <= r < nProc ==> r in ranks
  }

  /** The reply to the i-th readiness message: the backlog is popped from its end, then `False`. */
  function ReplyFor(tasks: seq<Task>, i: nat): Option<Task> {
    if i < |tasks| then Some(tasks[|tasks| - 1 - i]) else None
  }

  /** The state of rank 0's `while True` loop. */
  class Coordinator {
    const nProc: int
    var tasks: seq<Task>         // the backlog; `tasks.pop()` takes its last element
    var exited: seq<int>         // ranks sent `False`, in order
    var nextTaskIndex: int       // number of tasks sent
    ghost const original: seq<Task>
    ghost var sent: seq<Task>    // tasks sent, in order

    /** The backlog and the tasks sent so far make up the original list, and exits happen only on an empty backlog. */
    ghost predicate Valid()
      reads this
    {
      && original == tasks + Reversed(sent)
      && nextTaskIndex == |sent|
      && (exited != [] ==> tasks == [])
    }

    predicate AllExited()
      reads this
    {
      AllWorkersIn(exited, nProc)
    }

    constructor (tasks: seq<Task>, nProc: int)
      ensures Valid()
      ensures this.nProc == nProc && this.tasks == tasks && original == tasks
      ensures exited == [] && nextTaskIndex == 0 && sent == []
    {
      this.nProc := nProc;
      this.tasks := tasks;
      original := tasks;
      exited := [];
      nextTaskIndex := 0;
      sent := [];
    }

    /** One readiness message from `subrank`: send it a task if any remain, else `False`; `stop` is the loop's break. */
    method OnRequest(subrank: int) returns (reply: Option<Task>, stop: bool)
      requires Valid()
      modifies this
      ensures Valid()
      ensures old(tasks) != [] ==>
        && reply == Some(old(tasks)[|old(tasks)| - 1])
        && tasks == old(tasks)[..|old(tasks)| - 1]
        && sent == old(sent) + [reply.value]
        && exited == old(exited)
        && !stop
      ensures old(tasks) == [] ==>
        && reply == None
        && tasks == [] && sent == old(sent)
        && exited == old(exited) + [subrank]
        && stop == AllExited()
    {
      if tasks != [] {
        var t := tasks[|tasks| - 1];
        tasks := tasks[..|tasks| - 1];
        reply := Some(t);
        assert (sent + [t])[..|sent|] == sent;
        sent := sent + [t];
        nextTaskIndex := nextTaskIndex + 1;
        stop := false;
      } else {
        reply := None;
        exited := exited + [subrank];
        stop := AllExited();
      }
    }
  }

  /** A reply of rank 0: the destination rank and the task, or None for `False`. */
  datatype Reply = Reply(dest: int, task: Option<Task>)

  /** What rank 0 did. */
  datatype Dispatch =
    | NoConfigs(sentinels: seq<int>, exitCode: int)
    | Served(tasks: seq<Task>, replies: seq<Reply>, terminated: bool)

  function Range(lo: int, hi: int): (r: seq<int>)
    ensures |r| == if lo < hi then hi - lo else 0
    ensures forall i :: 0 <= i < |r| ==> r[i] == lo + i
    decreases hi - lo
  {
    if lo < hi then [lo] + Range(lo + 1, hi) else []
  }

  /** The tasks sent, in sending order. */
  function Delivered(replies: seq<Reply>): seq<Task>
    decreases |replies|
  {
    if replies == [] then []
    else
      var last := replies[|replies| - 1];
      Delivered(replies[..|replies| - 1]) + if last.task.Some? then [last.task.value] else []
  }

  /** After any number of messages, the tasks sent are a prefix of the task list reversed. */
  lemma {:induction false} DeliveredUpTo(tasks: seq<Task>, replies: seq<Reply>)
    requires forall i :: 0 <= i < |replies| ==> replies[i].task == ReplyFor(tasks, i)
    ensures Delivered(replies) == Reversed(tasks)[..if |replies| < |tasks| then |replies| else |tasks|]
    decreases |replies|
  {
    if replies != [] {
      var init, last := replies[..|replies| - 1], replies[|replies| - 1];
      forall i | 0 <= i < |init|
        ensures init[i].task == ReplyFor(tasks, i)
      {
        assert init[i] == replies[i];
      }
      DeliveredUpTo(tasks, init);
      assert init + [last] == replies;
      if |init| < |tasks| {
        DeliveredNext(tasks, init, last);
      } else {
        DeliveredNothing(tasks, init, last);
      }
    }
  }

  lemma AppendNext<T>(d: seq<T>, r: seq<T>, x: T, n: nat)
    requires n < |r| && d == r[..n] && x == r[n]
    ensures d + [x] == r[..n + 1]
  {
  }

  lemma DeliveredSnoc(init: seq<Reply>, last: Reply)
    ensures Delivered(init + [last]) == Delivered(init) + if last.task.Some? then [last.task.value] else []
  {
    assert (init + [last])[..|init|] == init;
  }

  /** While tasks remain, one more message sends the next task from the end. */
  lemma DeliveredNext(tasks: seq<Task>, init: seq<Reply>, last: Reply)
    requires |init| < |tasks| && Delivered(init) == Reversed(tasks)[..|init|]
    requires last.task == ReplyFor(tasks, |init|)
    ensures Delivered(init + [last]) == Reversed(tasks)[..|init| + 1]
  {
    DeliveredSnoc(init, last);
    ReplyForReversed(tasks, |init|);
    AppendNext(Delivered(init), Reversed(tasks), last.task.value, |init|);
  }

  /** Reply i carries element i of the reversed task list. */
  lemma ReplyForReversed(tasks: seq<Task>, i: nat)
    requires i < |tasks|
    ensures ReplyFor(tasks, i) == Some(Reversed(tasks)[i])
  {
  }

  /** Once the tasks are exhausted, one more message sends nothing. */
  lemma DeliveredNothing(tasks: seq<Task>, init: seq<Reply>, last: Reply)
    requires |init| >= |tasks|
    requires last.task == ReplyFor(tasks, |init|)
    ensures Delivered(init + [last]) == Delivered(init)
  {
    DeliveredSnoc(init, last);
  }

  /**
   * Rank 0's `while True` loop over the readiness messages `requests`: message i
   * is answered with `ReplyFor(tasks, i)`, and the loop breaks at the first
   * `False` after which every worker rank has been sent `False`.
   */
  method Serve(tasks: seq<Task>, nProc: int, requests: seq<int>)
    returns (replies: seq<Reply>, terminated: bool)
    ensures |replies| <= |requests|
    ensures forall i :: 0 <= i < |replies| ==> replies[i] == Reply(requests[i], ReplyFor(tasks, i))
    ensures terminated ==>
      && |tasks| < |replies|
      && AllWorkersIn(requests[|tasks|..|replies|], nProc)
      && (forall m :: |tasks| < m < |replies| ==> !AllWorkersIn(requests[|tasks|..m], nProc))
    ensures !terminated ==>
      && |replies| == |requests|
      && (forall m :: |tasks| < m <= |requests| ==> !AllWorkersIn(requests[|tasks|..m], nProc))
  {
    var c := new Coordinator(tasks, nProc);
    replies := [];
    var i := 0;
    terminated := false;
    while i < |requests| && !terminated
      invariant c.Valid() && c.nProc == nProc
      invariant ServedUpTo(tasks, nProc, requests, i, replies, c.tasks, c.exited, terminated)
      decreases |requests| - i
    {
      ghost var backlog, exited := c.tasks, c.exited;
      var reply, stop := c.OnRequest(requests[i]);
      ServeStep(tasks, nProc, requests, i, replies, backlog, exited, reply, stop, c.tasks, c.exited);
      replies := replies + [Reply(requests[i], reply)];
      i := i + 1;
      terminated := stop;
    }
  }

  /**
   * The state of `Serve` after i messages: each was answered with `ReplyFor`;
   * the backlog is the unsent prefix of the task list; once it is empty, the
   * later senders have exited, and the loop has broken exactly when they
   * first covered every worker rank.
   */
  ghost predicate ServedUpTo(tasks: seq<Task>, nProc: int, requests: seq<int>, i: int, replies: seq<Reply>,
                             backlog: seq<Task>, exited: seq<int>, terminated: bool)
  {
    && 0 <= i <= |requests|
    && |replies| == i
    && (forall j :: 0 <= j < i ==> replies[j] == Reply(requests[j], ReplyFor(tasks, j)))
    && (i <= |tasks| ==> backlog == tasks[..|tasks| - i] && exited == [] && !terminated)
    && (i > |tasks| ==> backlog == [] && exited == requests[|tasks|..i])
    && (forall m :: |tasks| < m < i ==> !AllWorkersIn(requests[|tasks|..m], nProc))
    && (i > |tasks| ==> (terminated <==> AllWorkersIn(requests[|tasks|..i], nProc)))
  }

  /** One more message, answered as `OnRequest` answers it, keeps `ServedUpTo`. */
  lemma ServeStep(tasks: seq<Task>, nProc: int, requests: seq<int>, i: int, replies: seq<Reply>,
                  backlog: seq<Task>, exited: seq<int>, reply: Option<Task>, stop: bool,
                  backlog': seq<Task>, exited': seq<int>)
    requires ServedUpTo(tasks, nProc, requests, i, replies, backlog, exited, false)
    requires i < |requests|
    requires backlog != [] ==>
      reply == Some(backlog[|backlog| - 1]) && backlog' == backlog[..|backlog| - 1] && exited' == exited && !stop
    requires backlog == [] ==>
      reply == None && backlog' == [] && exited' == exited + [requests[i]] && stop == AllWorkersIn(exited', nProc)
    ensures ServedUpTo(tasks, nProc, requests, i + 1, replies + [Reply(requests[i], reply)], backlog', exited', stop)
  {
    if i < |tasks| {
      assert tasks[..|tasks| - i][|tasks| - i - 1] == tasks[|tasks| - 1 - i];
      assert tasks[..|tasks| - i][..|tasks| - i - 1] == tasks[..|tasks| - (i + 1)];
      assert reply == ReplyFor(tasks, i);
    } else {
      SliceSnoc(requests, |tasks|, i);
      assert reply == ReplyFor(tasks, i);
    }
  }

  lemma SliceSnoc<T>(s: seq<T>, lo: nat, hi: nat)
    requires lo <= hi < |s|
    ensures s[lo..hi] + [s[hi]] == s[lo..hi + 1]
  {
  }

  /**
   * The rank-0 branch of `main`. Without configurations it sends `False` to
   * every rank 1 .. nProc-1 and exits with -1; otherwise it builds the task
   * list and serves it. Once it terminates, every task has been sent exactly
   * once, last generated first.
   */
  method Coordinate(configs: seq<Config>, nProc: int, isOuter: bool, gen: FoldGenerator, requests: seq<int>)
    returns (d: Dispatch)
    ensures configs == [] <==> d.NoConfigs?
    ensures d.NoConfigs? ==> d.sentinels == Range(1, nProc) && d.exitCode == -1
    ensures d.Served? ==> d.tasks == AllTasks(configs, isOuter, gen)
    ensures d.Served? ==> |d.replies| <= |requests|
    ensures d.Served? ==> forall i :: 0 <= i < |d.replies| ==> d.replies[i] == Reply(requests[i], ReplyFor(d.tasks, i))
    ensures d.Served? && d.terminated ==>
      && |d.tasks| < |d.replies|
      && AllWorkersIn(requests[|d.tasks|..|d.replies|], nProc)
      && (forall m :: |d.tasks| < m < |d.replies| ==> !AllWorkersIn(requests[|d.tasks|..m], nProc))
    ensures d.Served? && !d.terminated ==>
      && |d.replies| == |requests|
      && (forall m :: |d.tasks| < m <= |requests| ==> !AllWorkersIn(requests[|d.tasks|..m], nProc))
    ensures d.Served? && d.terminated ==>
      Delivered(d.replies) == Reversed(d.tasks) && multiset(Delivered(d.replies)) == multiset(d.tasks)
  {
    if |configs| == 0 {
      return NoConfigs(Range(1, nProc), -1);
    }
    var tasks := SplitTasks(configs, nProc, isOuter, gen);
    var replies, terminated := Serve(tasks, nProc, requests);
    d := Served(tasks, replies, terminated);
    if terminated {
      forall i | 0 <= i < |replies| ensures replies[i].task == ReplyFor(tasks, i) { }
      DeliveredUpTo(tasks, replies);
      ReversedPermutes(tasks);
    }
  }
}
