# NACHOS training scheduler, fold executor and epoch counting — a Dafny model

NACHOS trains image classifiers with nested cross-validation. This project
models three sequential parts of it, with the MPI, TensorFlow and pandas
plumbing around them abstracted away.

## Files

- `mpi_processing.dfy` (module `MpiProcessing`) is the MPI training driver:
  - `split_tasks` builds the task list;
  - each task gets a job name;
  - `run_training` skips a task whose run log says it is finished;
  - rank 0 runs the request loop. The `Coordinator` class holds the backlog, `exited` and `next_task_index`, and each readiness message is one `OnRequest` call. The backlog is served last in, first out.
  - A worker announces itself, runs each task it receives and stops at the first `False`.
  - Messages are sequences: the ranks that sent readiness messages, in arrival order, and the replies addressed to one worker.
  - Each run log's `is_finished` field is a map keyed by (output path, job name).
- `training_fold.dfy` (module `TrainingFold`) is one fold:
  - `_FoldTrainingInfo` is the class `FoldTrainingInfo`. It covers the job-name rewrite under an MPI rank, the partition of the files into testing / validation / training buckets (`get_dataset_info`), the model (an opaque value) and the checkpoint prefix with the callbacks.
  - `Fold` is the class `Fold`. It covers the choice between adopting the persisted fold info and recomputing and saving it, the checkpoint recovery, `create_dataset` (the empty-dataset guard and the drop-remainder rule), the "already trained" skip in `train_model`, and `output_results`.
  - The fold-info log and the checkpoint directory are maps. The externally visible steps (state saved, `fit` called, results written) are recorded, in order, in the `effects` field.
- `epoch_counting.dfy` (module `EpochCounting`) is the results script:
  - the first-occurrence argmin of a `val_loss` column;
  - the column name taken from a history path;
  - the nested dictionaries `count_epochs` builds;
  - the rows `print_counts` generates, in generation order;
  - the per-test-fold mean and sample variance `print_stderr` computes.
  - Every exception the script can raise is an `EpochError` value.
- `text.dfy` (module `Text`) models Python's `str.split` with an explicit separator and `sep.join`.
- `dicts.dfy` (module `Dicts`) models an insertion-ordered Python dictionary with string keys.
- `wrappers.dfy` holds `Option` (Python's `None`) and `Result` (an exception).
- `config.dfy` holds the configuration keys the modelled code reads.

## Places where the code departs from the intended behaviour

The model follows the code, and states the intended behaviour beside it.

- **A fold skipped for an empty training or validation dataset is recorded as finished.**
  - Such a fold is meant to stay unfinished, so that a later run retries it. The skip itself is reported only as a non-fatal error saying that training was skipped (training_fold.py:323-327).
  - In the code, `run_training` writes `is_finished = True` once `subject_loop` returns, and the outcome of `create_dataset` never reaches it (mpi_processing.py:76-82).
  - `SkippedFoldMarkedFinished` shows the difference. `RunTraining` marks such a fold finished, so rerunning the task trains nothing. `RunTrainingIntended` is told whether the datasets were usable: it leaves the fold unfinished, and the next run trains it.
  - This assumes that `training_loop`, which is not part of this model, returns normally after a skipped fold.

## Observations

- **After a resume at the epoch budget, `output_results` receives `None`.**
  - `train_model` returns before `self.history` is assigned (training_fold.py:334-337), so the history is the `None` set in `__init__` (training_fold.py:177).
  - `RunNewFold` shows it: a new fold that adopts a checkpoint at its budget calls no `fit`, and its only recorded step is `ResultsWritten(None)`.
- **`__init__` sets an attribute `checkpoint_name`, not `checkpoint_prefix`** (training_fold.py:52). A new fold info has no `checkpoint_prefix` until `create_callbacks` runs (training_fold.py:119-122). Only records saved after that are read, so behaviour is unaffected; the model's `checkpointPrefix` is `None` until then.
- **Outer and inner folds store their logs differently.**
  - The scheduler names an inner task `{job}_test_{t}_sub_{v}`. Under a truthy rank, `_FoldTrainingInfo` rewrites the job name to `{job}_test_{t}_val_{r}`.
  - So an inner fold's `fold_info` and its `is_finished` flag live in different logs (`InnerFoldNameDiffersFromRunLogName`).
  - For outer folds the two names coincide (`OuterFoldSharesRunLogName`).
- **Under a truthy rank the checkpoint prefix repeats the subjects.** The job name already carries them when `create_callbacks` appends them again (`PrefixUnderRank`).
- **Job names are plain concatenations, so different inner tasks can share one name** (`InnerJobNamesCanCollide`).
- **An empty history path raises a `NameError` instead of the intended error message.** The message refers to `target_id`, which is not defined (epoch_counting.py:27). Either way the script stops; the model returns `Err(EmptyPath(model))`.

## Model

| member | source | states |
|---|---|---|
| MpiProcessing.SplitTasks | scripts/training/training_multiprocessing/mpi_processing.py:19-46 | the task list is each configuration's generated folds with that configuration attached, configuration by configuration in order; an outer run asks the generator with no validation list; `n_proc` plays no part |
| MpiProcessing.AllTasksLength | scripts/training/training_multiprocessing/mpi_processing.py:31-46 | the number of tasks is the sum of the configurations' fold counts |
| MpiProcessing.AllTasksConcat | scripts/training/training_multiprocessing/mpi_processing.py:32-45 | the task list of two configuration lists in a row is the concatenation of their task lists |
| MpiProcessing.AllTasksOrigin | scripts/training/training_multiprocessing/mpi_processing.py:32-45 | every task carries one of the given configurations and a fold the generator produced for that configuration |
| MpiProcessing.JobName | scripts/training/training_multiprocessing/mpi_processing.py:59 | every job name of a task starts with `{job}_test_{t}`; the outer name is exactly that, and the inner name continues with `_sub_` and the validation subject (`None` rendered as `None`) |
| MpiProcessing.OuterJobNameInjective | scripts/training/training_multiprocessing/mpi_processing.py:59 | for one configuration, equal outer job names mean equal test subjects |
| MpiProcessing.InnerJobNameInjective | scripts/training/training_multiprocessing/mpi_processing.py:59 | for one configuration and test subject, equal inner job names mean equal validation subjects |
| MpiProcessing.InnerJobNamesCanCollide | scripts/training/training_multiprocessing/mpi_processing.py:59 | two different inner tasks (test `A_sub_B` with validation `C`, and test `A` with validation `B_sub_C`) get the same job name |
| MpiProcessing.RunTraining | scripts/training/training_multiprocessing/mpi_processing.py:58-82 | training runs exactly when the task's log does not say finished; afterwards the task's log says finished; a skipped task leaves the log unchanged; only the task's own log entry is added or changed |
| MpiProcessing.RunTrainingOutcome | scripts/training/training_multiprocessing/mpi_processing.py:66-82 | when `subject_loop` may raise: the exception leaves `run_training` exactly when the task was not finished and training raised, and then the log is unchanged; when it returns, the result is `run_training`'s |
| MpiProcessing.RaisedTaskIsRetrained | scripts/training/training_multiprocessing/mpi_processing.py:66-82 | a task whose training raised stays unfinished, the next run trains it, and once that run returns the task is finished |
| MpiProcessing.RunTrainingIntended | scripts/training/training_multiprocessing/mpi_processing.py:66-82 | the intended rule: training runs exactly when the log does not say finished, and the task ends finished exactly when it already was or its datasets were usable; an unusable fold leaves the log unchanged; with usable datasets it agrees with `run_training` |
| MpiProcessing.SkippedFoldMarkedFinished | scripts/training/training_multiprocessing/mpi_processing.py:76-82 | for an unfinished fold whose datasets were unusable, `run_training` leaves it finished so a rerun trains nothing, while the intended rule leaves it unfinished and the next run trains it |
| MpiProcessing.RunTrainingIdempotent | scripts/training/training_multiprocessing/mpi_processing.py:66-82 | calling `run_training` again on the same task trains nothing and leaves the log unchanged |
| MpiProcessing.FirstStop | scripts/training/training_multiprocessing/mpi_processing.py:225-233 | the worker loop's exit point: every reply before it is a task, and the reply at it (if any) is `False` |
| MpiProcessing.FirstStopAt | scripts/training/training_multiprocessing/mpi_processing.py:226-233 | when every reply before position k is a task and the reply at k (if any) is `False`, the loop exits at k |
| MpiProcessing.WorkerLoop | scripts/training/training_multiprocessing/mpi_processing.py:216-236 | the worker handles exactly the replies before the first `False`, in order, one task at a time; it announces its rank once at the start and once after each task; it stops exactly when a `False` arrives; its effect on the logs is `run_training` applied to each handled task in turn |
| MpiProcessing.TrainAll | scripts/training/training_multiprocessing/mpi_processing.py:226-233 | calling `run_training` on each received task in turn, in the order received, gives the run that applies it to that task list |
| MpiProcessing.TrainNext | scripts/training/training_multiprocessing/mpi_processing.py:232 | one more received task extends the run by `run_training` on the log the earlier tasks left |
| MpiProcessing.RunAllFinishes | scripts/training/training_multiprocessing/mpi_processing.py:225-233 | a worker run keeps every finished job finished and leaves every task it handled finished |
| MpiProcessing.RunAllSkipsFinished | scripts/training/training_multiprocessing/mpi_processing.py:66-68 | over tasks whose jobs are all finished, a worker trains nothing and changes no log |
| MpiProcessing.RerunTrainsNothing | scripts/training/training_multiprocessing/mpi_processing.py:66-82 | re-running the same tasks over the logs a run left performs zero training |
| MpiProcessing.RunAllTrainsEachJobOnce | scripts/training/training_multiprocessing/mpi_processing.py:66-82 | a worker trains only tasks it was given whose job was unfinished, and never trains the same job (output path and job name) twice |
| MpiProcessing.ReversedPermutes | scripts/training/training_multiprocessing/mpi_processing.py:184-190 | serving the backlog from its end delivers a permutation of it |
| MpiProcessing.Coordinator.constructor | scripts/training/training_multiprocessing/mpi_processing.py:164-177 | the loop starts with the whole task list as backlog, nothing exited, and `next_task_index` 0 |
| MpiProcessing.Coordinator.OnRequest | scripts/training/training_multiprocessing/mpi_processing.py:178-213 | with a non-empty backlog: the reply is its last task, the task leaves the backlog and joins the tasks sent, and the loop goes on. With an empty backlog: the reply is `False`, the rank joins `exited`, and the loop breaks exactly when every rank 1 .. n_proc-1 has exited. Both keep the invariant that the original list is the backlog followed by the sent tasks reversed, `next_task_index` counts the tasks sent, and ranks exit only on an empty backlog |
| MpiProcessing.DeliveredUpTo | scripts/training/training_multiprocessing/mpi_processing.py:184-199 | after any number of messages, the tasks sent are a prefix of the task list reversed |
| MpiProcessing.ReplyForReversed | scripts/training/training_multiprocessing/mpi_processing.py:184-190 | while tasks remain, reply i carries element i of the task list reversed (`tasks.pop()` takes the last task) |
| MpiProcessing.DeliveredNext | scripts/training/training_multiprocessing/mpi_processing.py:184-190 | while tasks remain, one more message sends the next task from the end |
| MpiProcessing.DeliveredNothing | scripts/training/training_multiprocessing/mpi_processing.py:193-199 | once the tasks are exhausted, one more message sends no task |
| MpiProcessing.Serve | scripts/training/training_multiprocessing/mpi_processing.py:177-213 | the i-th readiness message is answered, to its sender, with the i-th task from the end, or with `False` once all tasks are out; the loop breaks at the first `False` after which every worker rank has been sent `False`, and not before |
| MpiProcessing.Coordinate | scripts/training/training_multiprocessing/mpi_processing.py:155-213 | with no configurations, rank 0 sends `False` to ranks 1 .. n_proc-1 and exits with -1; otherwise it serves the task list of `split_tasks`. Once the loop ends, every task has been sent exactly once, last generated first |
| TrainingFold.FoldJobName | scripts/training/training_modules/training_processing/training_fold.py:54-57 | without a truthy rank the job name is unchanged; with one it is the scheduler's outer job name of the test subject, followed by `_val_{r}` for an inner fold |
| TrainingFold.CheckpointPrefix | scripts/training/training_modules/training_processing/training_fold.py:119-122 | the checkpoint prefix is the name `__init__` would give the current job name under a truthy rank, followed by `_config_{model}` |
| TrainingFold.FoldJobNameUnchangedWithoutRank | scripts/training/training_modules/training_processing/training_fold.py:54-57 | with rank `None` or 0, the job name is left unchanged |
| TrainingFold.OuterFoldSharesRunLogName | scripts/training/training_modules/training_processing/training_fold.py:55-57 | under a truthy rank, an outer fold's rewritten job name is the scheduler's job name of its task |
| TrainingFold.InnerFoldNameDiffersFromRunLogName | scripts/training/training_modules/training_processing/training_fold.py:55-57 | under a truthy rank, an inner fold's rewritten job name (`_val_`) never equals the scheduler's job name (`_sub_`) |
| TrainingFold.PrefixUnderRank | scripts/training/training_modules/training_processing/training_fold.py:119-122 | under a truthy rank, the checkpoint prefix carries the test subject (and, for inner folds, the rotation subject) twice |
| TrainingFold.PrefixSeparatesModels | scripts/training/training_modules/training_processing/training_fold.py:119-122 | folds that differ only in the selected model name get different checkpoint prefixes |
| TrainingFold.Classify | scripts/training/training_modules/training_processing/training_fold.py:77-95 | a file goes to testing exactly when its subject is the testing subject; to validation exactly when the fold is inner and the subject is the rotation subject (and not the testing one); to training exactly when it is neither of those and is in the subject list; otherwise it is dropped |
| TrainingFold.Picks | scripts/training/training_modules/training_processing/training_fold.py:73-100 | the indexes a bucket receives are in range, have that bucket's class, and increase strictly |
| TrainingFold.PicksComplete | scripts/training/training_modules/training_processing/training_fold.py:73-100 | every file index whose class is a bucket is picked for it |
| TrainingFold.PicksDisjoint | scripts/training/training_modules/training_processing/training_fold.py:77-95 | no file index is in two buckets |
| TrainingFold.OuterHasNoValidation | scripts/training/training_modules/training_processing/training_fold.py:77-84 | an outer fold never fills its validation bucket |
| TrainingFold.InnerScenario | scripts/training/training_modules/training_processing/training_fold.py:86-95 | for an inner fold, the checks run in order (testing subject, then rotation subject, then subject list), and a subject in none of them is dropped |
| TrainingFold.Distribute | scripts/training/training_modules/training_processing/training_fold.py:72-100 | partitioning keeps the three bucket keys and keeps every bucket's lists parallel |
| TrainingFold.BucketAlignment | scripts/training/training_modules/training_processing/training_fold.py:97-100 | in a bucket filled from empty: files, indexes and labels have equal length; indexes increase strictly; entry j is the file and label at index `indexes[j]`; an index is in the bucket exactly when its subject selects that bucket |
| TrainingFold.DropRemainder | scripts/training/training_modules/training_processing/training_fold.py:265-275 | the remainder is dropped exactly when twice the residual `len(files) % batch_size` is below the batch size |
| TrainingFold.PlanAll | scripts/training/training_modules/training_processing/training_fold.py:256-318 | building the datasets keeps the bucket keys and the bucket invariants |
| TrainingFold.InitialRecord | scripts/training/training_modules/training_processing/training_fold.py:32-57 | a new fold info has three empty buckets, no model, callbacks or prefix, and the job name rewritten for a truthy rank |
| TrainingFold.Setup | scripts/training/training_modules/training_processing/training_fold.py:60-64 | after setup, a fold info has valid buckets, a model and a checkpoint prefix |
| TrainingFold.Adoptable | scripts/training/training_modules/training_processing/training_fold.py:190-194 | a persisted fold info is adopted exactly when one exists under the fold's log key and its testing and rotation subjects both match |
| TrainingFold.FoldTrainingInfo.constructor | scripts/training/training_modules/training_processing/training_fold.py:16-57 | `__init__` gives three empty buckets, no model, callbacks or prefix, and the job name `{job}_test_{t}` (outer) or `{job}_test_{t}_val_{r}` (inner) when the rank is truthy |
| TrainingFold.FoldTrainingInfo.FromRecord | scripts/training/training_modules/training_processing/training_fold.py:190-195 | an unpickled fold info has exactly the persisted attributes |
| TrainingFold.FoldTrainingInfo.GetDatasetInfo | scripts/training/training_modules/training_processing/training_fold.py:67-100 | each file, with its index and label, is appended to the bucket its subject selects; dropped files change nothing |
| TrainingFold.FoldTrainingInfo.CreateModel | scripts/training/training_modules/training_processing/training_fold.py:103-111 | the fold info holds a freshly built model |
| TrainingFold.FoldTrainingInfo.CreateCallbacks | scripts/training/training_modules/training_processing/training_fold.py:114-143 | the checkpoint prefix is the current job name, `_test_{t}` (plus `_val_{r}` for inner folds) and `_config_{model}`; the checkpointer uses it; early stopping is added only for inner folds |
| TrainingFold.FoldTrainingInfo.RunAllSteps | scripts/training/training_modules/training_processing/training_fold.py:60-64 | partition, model and callbacks in that order: the fold info becomes its setup, with valid buckets, a model and a prefix |
| TrainingFold.Fold.constructor | scripts/training/training_modules/training_processing/training_fold.py:148-181 | a new fold has a new fold info, no history and checkpoint epoch 0 |
| TrainingFold.Fold.LoadState | scripts/training/training_modules/training_processing/training_fold.py:213-222 | the persisted fold info under (output path, current job name), and `None` exactly when there is none |
| TrainingFold.Fold.SaveState | scripts/training/training_modules/training_processing/training_fold.py:225-232 | the fold info is written under (output path, current job name), with the lock requested exactly when a rank was given; `load_state` then returns exactly what was saved |
| TrainingFold.Fold.LoadCheckpoint | scripts/training/training_modules/training_processing/training_fold.py:235-247 | with a checkpoint under the prefix, the model takes its weights and `checkpoint_epoch` its epoch; without one, a fresh model is built and the epoch is unchanged |
| TrainingFold.Fold.CreateDataset | scripts/training/training_modules/training_processing/training_fold.py:250-329 | every non-empty bucket gets a batched dataset, and only the training bucket may drop a remainder; the result is true exactly when training has files and, for an inner fold, validation has files |
| TrainingFold.Fold.CreateBucketDataset | scripts/training/training_modules/training_processing/training_fold.py:256-317 | an empty bucket is skipped; a non-empty one gets a dataset over its files with the batch size, dropping the remainder only for training when `2 * residual < batch_size`; no other bucket changes |
| TrainingFold.Fold.TrainModel | scripts/training/training_modules/training_processing/training_fold.py:332-375 | when training is complete, nothing happens; otherwise `fit` runs on the training dataset (with the validation dataset unless outer), for the epoch budget, starting at the checkpoint epoch, with the fold's callbacks (the checkpointer under its prefix, and early stopping for an inner fold), and its history is kept |
| TrainingFold.Fold.OutputResults | scripts/training/training_modules/training_processing/training_fold.py:379-396 | the results writer receives the current history |
| TrainingFold.Fold.Recover | scripts/training/training_modules/training_processing/training_fold.py:189-205 | the persisted fold info is adopted exactly when its subjects match, and then its checkpoint is loaded and nothing is saved; otherwise setup is recomputed and saved (under the lock when a rank was given) |
| TrainingFold.Fold.Adopt | scripts/training/training_modules/training_processing/training_fold.py:195-196 | a new fold-info object holds exactly the persisted record, except its model, which comes from the checkpoint under its prefix (or is fresh); the checkpoint epoch is the checkpoint's; nothing is saved and no history is set |
| TrainingFold.Fold.SetUpAndSave | scripts/training/training_modules/training_processing/training_fold.py:203-205 | the fold info becomes its setup and is saved under the log key it had, as the one recorded step |
| TrainingFold.Fold.RunAllSteps | scripts/training/training_modules/training_processing/training_fold.py:184-210 | recovery or setup and save come first; the datasets are built; exactly when both needed datasets exist, `fit` runs unless the checkpoint reached the budget, and results are written; the history is then that `fit` call's, or unchanged when it did not run; otherwise nothing is trained or written |
| TrainingFold.Fold.BuildAndTrain | scripts/training/training_modules/training_processing/training_fold.py:207-210 | the datasets are built; exactly when training (and, for an inner fold, validation) has files, `fit` runs unless the checkpoint reached the budget and the results are written; the history is then that `fit` call's, or unchanged when it did not run; otherwise neither history nor steps change |
| TrainingFold.RunNewFold | scripts/training/training_modules/training_processing/training_fold.py:177-210 | a new fold run through `run_all_steps`: one that recovers no checkpoint calls `fit` from epoch 0 for its budget, with a checkpointer under the prefix `load_checkpoint` reads, and writes that history; one that adopts a checkpoint already at its budget calls no `fit` and writes `None`; one with unusable datasets writes no results |
| EpochCounting.FirstArgMin | scripts/results_processing/epoch_counting/epoch_counting.py:32-37 | -1 exactly for an empty column (the source also keeps -1 for a column with no loss below infinity, which exact reals cannot express); otherwise an index holding the minimum loss, with every earlier loss strictly larger |
| EpochCounting.BestEpoch | scripts/results_processing/epoch_counting/epoch_counting.py:32-37 | the scan, starting from an infinite minimum and moving only on a strictly smaller loss, returns the first argmin |
| EpochCounting.ColumnName | scripts/results_processing/epoch_counting/epoch_counting.py:40 | a path has a column name exactly when it contains `/`; otherwise indexing piece -2 raises |
| EpochCounting.ColumnNameShape | scripts/results_processing/epoch_counting/epoch_counting.py:40 | the path is `pre + name + "/" + last`: no `/` in `last`, no `/` or `_` in `name`, and `pre` is empty or ends in `/` or `_` |
| EpochCounting.PathEntry | scripts/results_processing/epoch_counting/epoch_counting.py:26-40 | a path yields its column name and best epoch exactly when it is non-empty, readable and has a parent directory; otherwise the error is the first check that fails, in the order empty, unreadable, no parent directory |
| EpochCounting.CountEpochs | scripts/results_processing/epoch_counting/epoch_counting.py:9-44 | the three nested loops, stopping at the first bad path, compute the nested dictionaries (model, test fold, column, best epoch) built with Python's dictionary assignment |
| EpochCounting.RowCountsOk | scripts/results_processing/epoch_counting/epoch_counting.py:24-41 | a test fold's paths succeed exactly when each one is non-empty, readable and has a parent directory |
| EpochCounting.EmptyPathRaises | scripts/results_processing/epoch_counting/epoch_counting.py:26-28 | an empty path raises an error rather than producing an entry |
| EpochCounting.RowCountsKeepsOther | scripts/results_processing/epoch_counting/epoch_counting.py:41 | paths with other column names leave a column's value alone |
| EpochCounting.LastPathWins | scripts/results_processing/epoch_counting/epoch_counting.py:24-41 | a column holds the best epoch of the last path with that column name; earlier ones are overwritten |
| EpochCounting.ModelCountsKeys | scripts/results_processing/epoch_counting/epoch_counting.py:19-21 | a model's result has exactly the input's test folds, in order |
| EpochCounting.CountsKeys | scripts/results_processing/epoch_counting/epoch_counting.py:15-16 | the result has exactly the input's models, in order |
| EpochCounting.PrintCounts | scripts/results_processing/epoch_counting/epoch_counting.py:47-67 | the three nested loops (test-fold position, config, validation fold) generate the counts rows, stopping at the first missing test fold or config number |
| EpochCounting.ValidationRowsSpec | scripts/results_processing/epoch_counting/epoch_counting.py:58-67 | one config's t-th test fold adds one row per validation fold, and fails exactly when it has a row to add and no config number |
| EpochCounting.PositionRowsSpec | scripts/results_processing/epoch_counting/epoch_counting.py:56-67 | position t succeeds exactly when every config has a t-th test fold and each config that yields a row has a number; it adds the sum of their validation-fold counts |
| EpochCounting.RowsFromSpec | scripts/results_processing/epoch_counting/epoch_counting.py:55-67 | a range of positions succeeds exactly when each position does, and adds their row counts |
| EpochCounting.CountRowsOk | scripts/results_processing/epoch_counting/epoch_counting.py:54-67 | the counts table exists exactly when there is a config, every config has at least as many test folds as the first, and every config that yields a row has a number; it then has one row per (position, config, validation fold) |
| EpochCounting.ValidationRowsPlace | scripts/results_processing/epoch_counting/epoch_counting.py:58-67 | one config's rows at a position follow the earlier rows, validation fold j's row coming j-th with the config's number |
| EpochCounting.PositionRowsPlace | scripts/results_processing/epoch_counting/epoch_counting.py:56-67 | a position's rows follow the earlier rows, config by config; config c's rows come after those of the configs before it |
| EpochCounting.RowsFromPlace | scripts/results_processing/epoch_counting/epoch_counting.py:55-67 | a range of positions' rows follow the earlier rows, position by position |
| EpochCounting.CountRowsPlaced | scripts/results_processing/epoch_counting/epoch_counting.py:54-67 | row `SizeFrom(0, p) + PositionSize(configs before c, p) + j` of the counts table is validation fold j of config c's test fold at position p, with that config's number: positions in order, configs in order within a position, validation folds in order within a config |
| EpochCounting.FoldStatisticsOf | scripts/results_processing/epoch_counting/epoch_counting.py:86-97 | fails (division by zero) exactly when a test fold has zero or one validation fold |
| EpochCounting.FoldStatistics | scripts/results_processing/epoch_counting/epoch_counting.py:86-97 | the two loops compute the mean (sum over count), then the sum of squared deviations over n - 1 |
| EpochCounting.SumLoop | scripts/results_processing/epoch_counting/epoch_counting.py:87-90 | the first loop adds up the test fold's best epochs, in dictionary order |
| EpochCounting.DeviationLoop | scripts/results_processing/epoch_counting/epoch_counting.py:94-96 | the second loop adds up each best epoch's squared deviation from the mean |
| EpochCounting.MeanBounds | scripts/results_processing/epoch_counting/epoch_counting.py:86-91 | the mean lies between the smallest and the largest best epoch |
| EpochCounting.VarianceNonNegative | scripts/results_processing/epoch_counting/epoch_counting.py:94-97 | the value whose square root is taken is never negative |
| EpochCounting.ConstantFoldHasNoSpread | scripts/results_processing/epoch_counting/epoch_counting.py:86-97 | when all validation folds agree on an epoch, the mean is that epoch and the variance is 0 |
| EpochCounting.PrintStderr | scripts/results_processing/epoch_counting/epoch_counting.py:76-106 | config by config and test fold by test fold, one row of test fold, config, config number, mean and variance, stopping at the first division error or missing config number |
| EpochCounting.ConfigStderrRowsSpec | scripts/results_processing/epoch_counting/epoch_counting.py:84-106 | one config's rows exist exactly when each of its test folds has at least two validation folds and the config has a number; one row per test fold |
| EpochCounting.StderrRowsOk | scripts/results_processing/epoch_counting/epoch_counting.py:83-106 | the stderr table exists exactly when every test fold has at least two validation folds and every config has a number; one row per (config, test fold) |
| Text.SplitJoin | scripts/results_processing/epoch_counting/epoch_counting.py:40 | joining the pieces of `split` with the separator gives back the string |
| Text.SplitPiecesHaveNoSep | scripts/results_processing/epoch_counting/epoch_counting.py:40 | no piece of `split` contains the separator |
| Text.SplitCount | scripts/results_processing/epoch_counting/epoch_counting.py:40 | `split` yields one more piece than there are separators |
| Text.JoinSplit | scripts/results_processing/epoch_counting/epoch_counting.py:40 | splitting a join of separator-free pieces gives back the pieces |
| Dicts.PutGet | scripts/results_processing/epoch_counting/epoch_counting.py:41 | after `d[k] = v`, `k` reads `v` and every other key reads what it read before |
| Dicts.PutKeys | scripts/results_processing/epoch_counting/epoch_counting.py:16-21 | assignment keeps the key order and appends a new key at the end |
| Dicts.PutDistinct | scripts/results_processing/epoch_counting/epoch_counting.py:41 | assignment keeps the keys distinct |

## Left out

- MPI transport (`comm.send`, `comm.recv`, `MPI.ANY_SOURCE`): it is concurrency. The coordinator handles a sequence of readiness messages; a worker consumes the sequence of replies sent to it.
- GPU and environment setup, wall-clock timing, the timing file written at termination, `perf_counter` and `time_elapsed`, and all console printing: these are I/O and clock readings.
- TensorFlow and Keras: `tf.data` mapping and batching, `parse_image`, `fit`, `EarlyStopping`, model building and the tensorboard path. They are not part of this model.
  - A batched dataset is modelled by its files, batch size and drop flag.
  - `fit` is modelled by its arguments: the datasets, the epoch budget, the initial epoch and the callbacks.
  - A model is fresh or carries a checkpoint's weights.
- Several modules are not part of this model: `read_log_items` / `write_log`, `get_most_recent_checkpoint`, `Checkpointer`, `fold_generator.generate_pairs`, `TrainingVars`, `training_loop`, `subject_loop`, `output_results` and `TrainingModel`.
  - Logs and checkpoints are maps.
  - The fold generator is a function parameter.
  - How a checkpoint's epoch is chosen is not assumed.
  - The body of `subject_loop` is one opaque training step. `RunTrainingOutcome` also covers a step that raises.
- The `fasteners` file lock: it is concurrency. `Fold.SaveState` records whether it requests the lock. `run_training` always requests it when it writes `is_finished` (mpi_processing.py:81), and `RunTraining` does not record that request.
- `MpiProcessing.RunTraining`: models the run log's `is_finished` field alone. `write_log` merges fields into an existing log, so the other fields are untouched.
- `MpiProcessing.RunTraining`: assumes `subject_loop` returns. A raising `subject_loop` leaves before `write_log` (mpi_processing.py:76-82); that single step is `RunTrainingOutcome`.
- `MpiProcessing.WorkerLoop`, `MpiProcessing.TrainAll` and `MpiProcessing.RunAll` assume every training step returns. An exception ends the worker process, so the tasks after it are not run; the crash and the resumed run are modelled one task at a time by `RunTrainingOutcome` and `RaisedTaskIsRetrained`.
- The in-place rewrite of `config['job_name']` (training_fold.py:56) is modelled on a per-fold copy of the configuration. Whether callers share one dictionary across folds is decided in code that is not part of this model.
- `TrainingFold.FoldTrainingInfo.constructor`: the `folds` argument is stored and never read, so it is not modelled.
- `TrainingFold.StoreWellFormed`: assumes every persisted fold info was written by `save_state` after `create_callbacks`, so it has buckets, a model, a prefix and the callbacks built for that prefix.
- `TrainingFold.Fold.LoadCheckpoint`: assumes a checkpoint prefix exists. A persisted fold info always has one, because it is saved after `create_callbacks`. The `AttributeError` that a record without a model would raise is not modelled.
- `TrainingFold.Setup`: requires at least as many subject and label indexes as files. Shorter `indexes` lists make `get_dataset_info` raise an `IndexError` (training_fold.py:75, 100), and that error is not modelled.
- `TrainingFold.FoldTrainingInfo.GetDatasetInfo`: the same requirement on the index lists; the `IndexError` is not modelled.
- `TrainingFold.FoldTrainingInfo.RunAllSteps`: the same requirement on the index lists; the `IndexError` is not modelled.
- `TrainingFold.Fold.Recover`: the same requirement on the index lists; the `IndexError` is not modelled.
- `TrainingFold.Fold.SetUpAndSave`: the same requirement on the index lists; the `IndexError` is not modelled.
- `TrainingFold.Fold.RunAllSteps`: the same requirement on the index lists; the `IndexError` is not modelled.
- `TrainingFold.RunNewFold`: the same requirement on the index lists; the `IndexError` is not modelled.
- A non-positive batch size is excluded by the `BatchSize` type. TensorFlow would raise on it.
- pandas `read_csv`, `DataFrame.append`, `sort_values` and `to_csv`:
  - A history file is its `val_loss` column.
  - A file that is missing or unreadable is `Err(MissingHistory)`.
  - The tables are the row sequences before sorting.
- `EpochCounting.BestEpoch`: losses are exact reals. A non-empty column with no loss below infinity (all NaN or all +inf) keeps `min_index = -1` in the source (epoch_counting.py:31-37); the model returns 0 for it.
- `EpochCounting.FoldStatistics`: stops at the sample variance. `math.sqrt` and the division by `sqrt(n)` that give the standard error are floating-point. Losses and means are exact reals, so NaN and infinite losses are not modelled.
- `EpochCounting.CountEpochs`: an empty path ends with `Err(EmptyPath)`. In the code it ends with the `NameError` described under "Observations".
- `main` of the epoch-counting script is not modelled: it reads the configuration, creates the output directory and collects paths and config numbers.
- `scripts/data_split/OCT/split_data.py` is not part of this model. It is file copying and random shuffling.
