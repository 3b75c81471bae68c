/**
 * One fold of the nested cross-validation: the fold-info object that
 * partitions the files into testing, training and validation buckets and
 * derives the checkpoint prefix, and the fold object that recovers or
 * recomputes that setup, builds the datasets and decides whether to train.
 * Model building, image parsing, `fit` and result writing are opaque steps;
 * the fold-info log and the checkpoint directory are maps.
 */
module TrainingFold {
  import opened Wrappers
  import opened TrainingConfig
  import MpiProcessing

  // ---------------------------------------------------------------------------
  // Values
  // ---------------------------------------------------------------------------

  /** The keys of the `datasets` dictionary. */
  datatype Split = Testing | Training | Validation

  /** The dictionary's iteration order. */
  const SplitOrder: seq<Split> := [Testing, Training, Validation]

  type Label = int

  /** A batched `tf.data` dataset: which files, in which order, and whether a last partial batch is dropped. */
  datatype BatchPlan = BatchPlan(files: seq<string>, batchSize: int, dropRemainder: bool)

  /** One entry of `datasets`: `files`, `indexes`, `labels` and `ds`. */
  datatype Bucket = Bucket(files: seq<string>, indexes: seq<int>, labels: seq<Label>, ds: Option<BatchPlan>)

  const EmptyBucket: Bucket := Bucket([], [], [], None)

  const EmptyDatasets: map<Split, Bucket> :=
    map[Testing := EmptyBucket, Training := EmptyBucket, Validation := EmptyBucket]

  /** A bucket's three lists run in parallel, and a built dataset is never over an empty file list. */
  predicate BucketValid(b: Bucket) {
    && |b.indexes| == |b.files|
    && |b.labels| == |b.files|
    && (b.ds.Some? ==> b.files != [])
  }

  predicate DatasetsValid(ds: map<Split, Bucket>) {
    && Testing in ds && Training in ds && Validation in ds
    && BucketValid(ds[Testing]) && BucketValid(ds[Training]) && BucketValid(ds[Validation])
  }

  /** Opaque model weights. */
  datatype Weights = Weights(id: int)

  /** The model held by the fold: freshly built, or carrying a checkpoint's weights. */
  datatype ModelState = FreshModel | Restored(weights: Weights)

  /** The training callbacks: a checkpointer under a prefix, plus early stopping for inner folds. */
  datatype Callbacks = Callbacks(checkpointPrefix: string, earlyStopping: bool)

  /** What `get_most_recent_checkpoint` returns: the model and its epoch. */
  datatype Checkpoint = Checkpoint(weights: Weights, epoch: int)

  /** The most recent checkpoint, keyed by (output path, checkpoint prefix); how it is chosen is not modelled. */
  type CheckpointStore = map<(string, string), Checkpoint>

  /** A persisted fold-info object: every attribute of `_FoldTrainingInfo` that the model keeps. */
  datatype FoldRecord = FoldRecord(
    foldIndex: int,
    config: Config,
    testingSubject: string,
    rotationSubject: string,
    files: seq<string>,
    subjects: seq<string>,
    labels: seq<Label>,
    labelPosition: int,
    nEpochs: int,
    rank: Option<int>,
    isOuter: bool,
    datasets: map<Split, Bucket>,
    model: Option<ModelState>,
    callbacks: Option<Callbacks>,
    checkpointPrefix: Option<string>)

  /** The `fold_info` field of every run log, keyed by (output path, job name). */
  type StateStore = map<(string, string), FoldRecord>

  /**
   * A record as `save_state` writes it: after setup, so it has datasets, a
   * model, a prefix, and the callbacks `create_callbacks` built for that prefix.
   */
  predicate RecordWellFormed(r: FoldRecord) {
    && DatasetsValid(r.datasets) && r.model.Some? && r.checkpointPrefix.Some?
    && r.callbacks == Some(Callbacks(r.checkpointPrefix.value, !r.isOuter))
  }

  predicate StoreWellFormed(store: StateStore) {
    forall k :: k in store ==> RecordWellFormed(store[k])
  }

  // ---------------------------------------------------------------------------
  // Job name and checkpoint prefix
  // ---------------------------------------------------------------------------

  /** Python truthiness of the optional rank: None and 0 are false. */
  predicate Truthy(rank: Option<int>) {
    rank.Some? && rank.value != 0
  }

  /**
   * `config['job_name']` after `_FoldTrainingInfo.__init__`: under a truthy
   * rank, the scheduler's outer job name, followed by `_val_{rotation}` for an
   * inner fold.
   */
  function FoldJobName(jobName: string, testing: string, rotation: string, rank: Option<int>, isOuter: bool): (r: string)
    ensures !Truthy(rank) ==> r == jobName
    ensures Truthy(rank) ==>
      r == MpiProcessing.JobName(jobName, testing, None, true) + (if isOuter then "" else "_val_" + rotation)
  {
    if !Truthy(rank) then jobName
    else if isOuter then jobName + "_test_" + testing
    else jobName + "_test_" + testing + "_val_" + rotation
  }

  /**
   * The checkpoint prefix `create_callbacks` derives from the current job
   * name: the name `__init__` would give that job under a truthy rank,
   * followed by `_config_{model}`.
   */
  function CheckpointPrefix(jobName: string, testing: string, rotation: string, modelName: string, isOuter: bool): (r: string)
    ensures r == FoldJobName(jobName, testing, rotation, Some(1), isOuter) + "_config_" + modelName
  {
    if isOuter then jobName + "_test_" + testing + "_config_" + modelName
    else jobName + "_test_" + testing + "_val_" + rotation + "_config_" + modelName
  }

  /** Without a truthy rank (no MPI, or rank 0) the job name is left as it is. */
  lemma FoldJobNameUnchangedWithoutRank(jobName: string, testing: string, rotation: string, rank: Option<int>, isOuter: bool)
    requires rank == None || rank == Some(0)
    ensures FoldJobName(jobName, testing, rotation, rank, isOuter) == jobName
  {
  }

  /** For an outer fold the rewritten job name is the scheduler's job name, so both fields share one log. */
  lemma OuterFoldSharesRunLogName(jobName: string, testing: string, rotation: string, rank: Option<int>, v: Option<string>)
    requires Truthy(rank)
    ensures FoldJobName(jobName, testing, rotation, rank, true) == MpiProcessing.JobName(jobName, testing, v, true)
  {
  }

  /** For an inner fold the rewritten job name (`_val_`) never equals the scheduler's (`_sub_`). */
  lemma InnerFoldNameDiffersFromRunLogName(jobName: string, testing: string, rotation: string, rank: Option<int>, v: Option<string>)
    requires Truthy(rank)
    ensures FoldJobName(jobName, testing, rotation, rank, false) != MpiProcessing.JobName(jobName, testing, v, false)
  {
    var p := jobName + "_test_" + testing;
    var a := FoldJobName(jobName, testing, rotation, rank, false);
    var b := MpiProcessing.JobName(jobName, testing, v, false);
    assert a == p + "_val_" + rotation;
    assert b == p + "_sub_" + MpiProcessing.SubjectText(v);
    assert a[|p| + 1] == 'v';
    assert b[|p| + 1] == 's';
  }

  /** Under a truthy rank the prefix repeats the subjects, since the job name already carries them. */
  lemma PrefixUnderRank(jobName: string, testing: string, rotation: string, modelName: string, rank: Option<int>)
    requires Truthy(rank)
    ensures CheckpointPrefix(FoldJobName(jobName, testing, rotation, rank, true), testing, rotation, modelName, true)
      == jobName + "_test_" + testing + "_test_" + testing + "_config_" + modelName
    ensures CheckpointPrefix(FoldJobName(jobName, testing, rotation, rank, false), testing, rotation, modelName, false)
      == jobName + "_test_" + testing + "_val_" + rotation + "_test_" + testing + "_val_" + rotation + "_config_" + modelName
  {
  }

  /** Folds that differ only in the model name get different checkpoint prefixes. */
  lemma PrefixSeparatesModels(jobName: string, testing: string, rotation: string, m1: string, m2: string, isOuter: bool)
    requires CheckpointPrefix(jobName, testing, rotation, m1, isOuter) == CheckpointPrefix(jobName, testing, rotation, m2, isOuter)
    ensures m1 == m2
  {
    var p := if isOuter then jobName + "_test_" + testing + "_config_"
             else jobName + "_test_" + testing + "_val_" + rotation + "_config_";
    assert m1 == (p + m1)[|p|..];
    assert m2 == (p + m2)[|p|..];
  }

  // ---------------------------------------------------------------------------
  // Partitioning files into buckets
  // ---------------------------------------------------------------------------

  /** The bucket a file of `subject` goes to, checked in the order testing, validation (inner only), training. */
  function Classify(subject: string, testing: string, rotation: string, subjectList: seq<string>, isOuter: bool)
    : (r: Option<Split>)
    ensures r == Some(Testing) <==> subject == testing
    ensures r == Some(Validation) <==> !isOuter && subject == rotation && subject != testing
    ensures r == Some(Training) <==> subject != testing && (isOuter || subject != rotation) && subject in subjectList
    ensures r == None <==> subject != testing && (isOuter || subject != rotation) && subject !in subjectList
  {
    if subject == testing then Some(Testing)
    else if !isOuter && subject == rotation then Some(Validation)
    else if subject in subjectList then Some(Training)
    else None
  }

  /** The bucket of each of the first n files. */
  function ClassesOf(subjects: seq<string>, n: nat, testing: string, rotation: string, subjectList: seq<string>, isOuter: bool)
    : (c: seq<Option<Split>>)
    requires n <= |subjects|
    ensures |c| == n
    ensures forall i :: 0 <= i < n ==> c[i] == Classify(subjects[i], testing, rotation, subjectList, isOuter)
  {
    seq(n, i requires 0 <= i < n => Classify(subjects[i], testing, rotation, subjectList, isOuter))
  }

  /** The positions assigned to bucket d, in increasing order. */
  function Picks(c: seq<Option<Split>>, d: Split): (r: seq<int>)
    ensures forall k :: 0 <= k < |r| ==> 0 <= r[k] < |c| && c[r[k]] == Some(d)
    ensures forall k, l :: 0 <= k < l < |r| ==> r[k] < r[l]
    decreases |c|
  {
    if c == [] then []
    else Picks(c[..|c| - 1], d) + if c[|c| - 1] == Some(d) then [|c| - 1] else []
  }

  /** Every position assigned to d is picked. */
  lemma {:induction false} PicksComplete(c: seq<Option<Split>>, d: Split, i: int)
    requires 0 <= i < |c| && c[i] == Some(d)
    ensures i in Picks(c, d)
    decreases |c|
  {
    if i < |c| - 1 {
      PicksComplete(c[..|c| - 1], d, i);
    } else {
      assert Picks(c, d)[|Picks(c, d)| - 1] == i;
    }
  }

  function Gather<T>(xs: seq<T>, picks: seq<int>): (r: seq<T>)
    requires forall k :: 0 <= k < |picks| ==> 0 <= picks[k] < |xs|
    ensures |r| == |picks| && forall k :: 0 <= k < |picks| ==> r[k] == xs[picks[k]]
  {
    seq(|picks|, k requires 0 <= k < |picks| => xs[picks[k]])
  }

  lemma GatherSnoc<T>(xs: seq<T>, picks: seq<int>, i: int)
    requires forall k :: 0 <= k < |picks| ==> 0 <= picks[k] < |xs|
    requires 0 <= i < |xs|
    ensures Gather(xs, picks + [i]) == Gather(xs, picks) + [xs[i]]
  {
  }

  /** A bucket after the files at `picks` were appended to it. */
  function Extend(b: Bucket, files: seq<string>, labels: seq<Label>, picks: seq<int>): Bucket
    requires forall k :: 0 <= k < |picks| ==> 0 <= picks[k] < |files| && picks[k] < |labels|
  {
    Bucket(b.files + Gather(files, picks), b.indexes + picks, b.labels + Gather(labels, picks), b.ds)
  }

  /** The buckets after every file was appended to the bucket its class names. */
  function Distribute(before: map<Split, Bucket>, files: seq<string>, labels: seq<Label>, c: seq<Option<Split>>)
    : (after: map<Split, Bucket>)
    requires |c| <= |files| && |c| <= |labels|
    ensures after.Keys == before.Keys
    ensures DatasetsValid(before) ==> DatasetsValid(after)
  {
    map d | d in before :: Extend(before[d], files, labels, Picks(c, d))
  }

  /** Classifying one more file appends it to its bucket and leaves the other buckets alone. */
  lemma ExtendStep(b: Bucket, files: seq<string>, labels: seq<Label>, c: seq<Option<Split>>, i: int, d: Split)
    requires 0 <= i < |c| <= |files| && |c| <= |labels|
    ensures var e := Extend(b, files, labels, Picks(c[..i], d));
      Extend(b, files, labels, Picks(c[..i + 1], d))
        == if c[i] == Some(d) then Bucket(e.files + [files[i]], e.indexes + [i], e.labels + [labels[i]], e.ds) else e
  {
    var p := Picks(c[..i], d);
    assert c[..i + 1][..i] == c[..i];
    assert Picks(c[..i + 1], d) == p + if c[i] == Some(d) then [i] else [];
    if c[i] == Some(d) {
      GatherSnoc(files, p, i);
      GatherSnoc(labels, p, i);
      assert Extend(b, files, labels, p + [i]).files == b.files + Gather(files, p) + [files[i]];
      assert Extend(b, files, labels, p + [i]).labels == b.labels + Gather(labels, p) + [labels[i]];
      assert Extend(b, files, labels, p + [i]).indexes == b.indexes + p + [i];
    } else {
      assert p + [] == p;
    }
  }

  /** A bucket with one more file, index and label. */
  function Append(b: Bucket, file: string, index: int, lab: Label): Bucket {
    Bucket(b.files + [file], b.indexes + [index], b.labels + [lab], b.ds)
  }

  /** Distributing one more position updates only the bucket its class names. */
  lemma DistributeStep(before: map<Split, Bucket>, files: seq<string>, labels: seq<Label>, c: seq<Option<Split>>, i: int)
    requires 0 <= i < |c| <= |files| && |c| <= |labels|
    ensures var m := Distribute(before, files, labels, c[..i]);
      Distribute(before, files, labels, c[..i + 1])
        == if c[i].Some? && c[i].value in m then m[c[i].value := Append(m[c[i].value], files[i], i, labels[i])] else m
  {
    var m := Distribute(before, files, labels, c[..i]);
    var m' := Distribute(before, files, labels, c[..i + 1]);
    forall d | d in before
      ensures m'[d] == if c[i] == Some(d) then Append(m[d], files[i], i, labels[i]) else m[d]
    {
      ExtendStep(before[d], files, labels, c, i, d);
    }
  }

  /**
   * A bucket filled from empty: its lists run in parallel, its indexes are
   * increasing, each entry is the file and label at its index, and an index is
   * in it exactly when the file's class is this bucket.
   */
  lemma BucketAlignment(files: seq<string>, labels: seq<Label>, c: seq<Option<Split>>, d: Split, b: Bucket)
    requires |c| <= |files| && |c| <= |labels|
    requires b == Extend(EmptyBucket, files, labels, Picks(c, d))
    ensures |b.files| == |b.indexes| == |b.labels|
    ensures forall j, k :: 0 <= j < k < |b.indexes| ==> b.indexes[j] < b.indexes[k]
    ensures forall j :: 0 <= j < |b.indexes| ==> b.files[j] == files[b.indexes[j]] && b.labels[j] == labels[b.indexes[j]]
    ensures forall i :: 0 <= i < |c| ==> (i in b.indexes <==> c[i] == Some(d))
  {
    var p := Picks(c, d);
    assert b.indexes == p;
    assert b.files == Gather(files, p);
    assert b.labels == Gather(labels, p);
    forall i | 0 <= i < |c| && c[i] == Some(d)
      ensures i in p
    {
      PicksComplete(c, d, i);
    }
  }

  /** A class no position has is picked nowhere. */
  lemma {:induction false} PicksAbsent(c: seq<Option<Split>>, d: Split)
    requires forall i :: 0 <= i < |c| ==> c[i] != Some(d)
    ensures Picks(c, d) == []
    decreases |c|
  {
    if c != [] {
      PicksAbsent(c[..|c| - 1], d);
    }
  }

  /** No file index is in two buckets. */
  lemma PicksDisjoint(c: seq<Option<Split>>, d1: Split, d2: Split, i: int)
    requires d1 != d2
    ensures !(i in Picks(c, d1) && i in Picks(c, d2))
  {
  }

  /** An outer fold never fills its validation bucket. */
  lemma OuterHasNoValidation(subjects: seq<string>, n: nat, testing: string, rotation: string, subjectList: seq<string>)
    requires n <= |subjects|
    ensures Picks(ClassesOf(subjects, n, testing, rotation, subjectList, true), Validation) == []
  {
    PicksAbsent(ClassesOf(subjects, n, testing, rotation, subjectList, true), Validation);
  }

  /** The inner-loop example: test A, rotation B or C, subject list A, B, C, D. */
  lemma InnerScenario()
    ensures Classify("D", "A", "B", ["A", "B", "C", "D"], false) == Some(Training)
    ensures Classify("A", "A", "B", ["A", "B", "C", "D"], false) == Some(Testing)
    ensures Classify("B", "A", "B", ["A", "B", "C", "D"], false) == Some(Validation)
    ensures Classify("B", "A", "C", ["A", "B", "C", "D"], false) == Some(Training)
    ensures Classify("E", "A", "C", ["A", "B", "C", "D"], false) == None
  {
  }

  // ---------------------------------------------------------------------------
  // Dataset construction and the training decision
  // ---------------------------------------------------------------------------

  /** The drop-remainder rule: the residual is compared with half the batch size, as a float. */
  function DropRemainder(count: nat, batchSize: BatchSize): (r: bool)
    ensures r <==> 2 * (count % batchSize) < batchSize
  {
    (count % batchSize) as real < batchSize as real / 2.0
  }

  /** A bucket after `create_dataset`: an empty one is skipped, the others are batched; only training may drop a remainder. */
  function Planned(b: Bucket, d: Split, batchSize: BatchSize): Bucket {
    if b.files == [] then b
    else b.(ds := Some(BatchPlan(b.files, batchSize, d == Training && DropRemainder(|b.files|, batchSize))))
  }

  /** Training is already complete when the recovered epoch is the epoch budget (and not 0). */
  predicate TrainingComplete(checkpointEpoch: int, nEpochs: int) {
    checkpointEpoch != 0 && checkpointEpoch == nEpochs
  }

  /** The record `__init__` builds, with the job name rewritten for a truthy rank. */
  function InitialRecord(foldIndex: int, config: Config, testing: string, rotation: string,
                         files: seq<string>, subjects: seq<string>, labels: seq<Label>,
                         labelPosition: int, nEpochs: int, rank: Option<int>, isOuter: bool): (r: FoldRecord)
    ensures r.config == config.(jobName := FoldJobName(config.jobName, testing, rotation, rank, isOuter))
    ensures r.datasets == EmptyDatasets && r.model == None && r.callbacks == None && r.checkpointPrefix == None
  {
    FoldRecord(foldIndex, config.(jobName := FoldJobName(config.jobName, testing, rotation, rank, isOuter)),
               testing, rotation, files, subjects, labels, labelPosition, nEpochs, rank, isOuter,
               EmptyDatasets, None, None, None)
  }

  /** The buckets after `create_dataset`. */
  function PlanAll(ds: map<Split, Bucket>, batchSize: BatchSize): (r: map<Split, Bucket>)
    ensures r.Keys == ds.Keys
    ensures DatasetsValid(ds) ==> DatasetsValid(r)
  {
    map d | d in ds :: Planned(ds[d], d, batchSize)
  }

  /** What `_FoldTrainingInfo.run_all_steps` makes of a record. */
  function Setup(before: FoldRecord): (after: FoldRecord)
    requires |before.subjects| >= |before.files| && |before.labels| >= |before.files|
    ensures DatasetsValid(before.datasets) ==> RecordWellFormed(after)
  {
    var prefix := CheckpointPrefix(before.config.jobName, before.testingSubject, before.rotationSubject,
                                   before.config.selectedModelName, before.isOuter);
    before.(datasets := Distribute(before.datasets, before.files, before.labels,
                                   ClassesOf(before.subjects, |before.files|, before.testingSubject,
                                             before.rotationSubject, before.config.subjectList, before.isOuter)),
            model := Some(FreshModel),
            callbacks := Some(Callbacks(prefix, !before.isOuter)),
            checkpointPrefix := Some(prefix))
  }

  // ---------------------------------------------------------------------------
  // _FoldTrainingInfo
  // ---------------------------------------------------------------------------

  class FoldTrainingInfo {
    const foldIndex: int
    const config: Config            // a per-fold copy of the configuration
    const testingSubject: string
    const rotationSubject: string
    const files: seq<string>
    const subjects: seq<string>     // indexes['subjects']
    const labels: seq<Label>        // indexes['labels']
    const labelPosition: int
    const nEpochs: int
    const rank: Option<int>
    const isOuter: bool
    var datasets: map<Split, Bucket>
    var model: Option<ModelState>
    var callbacks: Option<Callbacks>
    var checkpointPrefix: Option<string>

    ghost predicate Valid()
      reads this
    {
      DatasetsValid(datasets)
    }

    function Snapshot(): FoldRecord
      reads this
    {
      FoldRecord(foldIndex, config, testingSubject, rotationSubject, files, subjects, labels, labelPosition,
                 nEpochs, rank, isOuter, datasets, model, callbacks, checkpointPrefix)
    }

    /** `__init__`: empty buckets, no model yet, and the job name rewritten when the rank is truthy. */
    constructor (foldIndex: int, config: Config, testingSubject: string, rotationSubject: string,
                 files: seq<string>, subjects: seq<string>, labels: seq<Label>,
                 labelPosition: int, nEpochs: int, rank: Option<int>, isOuter: bool)
      ensures Valid()
      ensures Snapshot() == InitialRecord(foldIndex, config, testingSubject, rotationSubject, files, subjects,
                                          labels, labelPosition, nEpochs, rank, isOuter)
    {
      this.foldIndex := foldIndex;
      this.testingSubject := testingSubject;
      this.rotationSubject := rotationSubject;
      this.files := files;
      this.subjects := subjects;
      this.labels := labels;
      this.labelPosition := labelPosition;
      this.nEpochs := nEpochs;
      this.rank := rank;
      this.isOuter := isOuter;
      datasets := EmptyDatasets;
      model := None;
      callbacks := None;
      checkpointPrefix := None;
      if Truthy(rank) {
        this.config := config.(jobName :=
          if isOuter then config.jobName + "_test_" + testingSubject
          else config.jobName + "_test_" + testingSubject + "_val_" + rotationSubject);
      } else {
        this.config := config;
      }
    }

    /** The object a persisted record unpickles to. */
    constructor FromRecord(r: FoldRecord)
      requires DatasetsValid(r.datasets)
      ensures Valid() && Snapshot() == r
    {
      foldIndex := r.foldIndex;
      config := r.config;
      testingSubject := r.testingSubject;
      rotationSubject := r.rotationSubject;
      files := r.files;
      subjects := r.subjects;
      labels := r.labels;
      labelPosition := r.labelPosition;
      nEpochs := r.nEpochs;
      rank := r.rank;
      isOuter := r.isOuter;
      datasets := r.datasets;
      model := r.model;
      callbacks := r.callbacks;
      checkpointPrefix := r.checkpointPrefix;
    }

    function Classes(): seq<Option<Split>>
      reads this
      requires |subjects| >= |files|
    {
      ClassesOf(subjects, |files|, testingSubject, rotationSubject, config.subjectList, isOuter)
    }

    /** `get_dataset_info`: appends every file, with its index and label, to the bucket its subject selects. */
    method GetDatasetInfo()
      requires Valid() && |subjects| >= |files| && |labels| >= |files|
      modifies this`datasets
      ensures Valid()
      ensures datasets == Distribute(old(datasets), files, labels, Classes())
    {
      ghost var c := Classes();
      var i := 0;
      assert c[..0] == [];
      forall d | d in datasets
        ensures Extend(datasets[d], files, labels, Picks(c[..0], d)) == datasets[d]
      {
        assert datasets[d].files + [] == datasets[d].files;
        assert datasets[d].indexes + [] == datasets[d].indexes;
        assert datasets[d].labels + [] == datasets[d].labels;
      }
      while i < |files|
        invariant 0 <= i <= |files|
        invariant Valid()
        invariant datasets == Distribute(old(datasets), files, labels, c[..i])
      {
        var target := Classify(subjects[i], testingSubject, rotationSubject, config.subjectList, isOuter);
        DistributeStep(old(datasets), files, labels, c, i);
        if target.Some? {
          var d := target.value;
          var b := datasets[d];
          datasets := datasets[d := Bucket(b.files + [files[i]], b.indexes + [i], b.labels + [labels[i]], b.ds)];
        }
        i := i + 1;
      }
      assert c[..|files|] == c;
    }

    /** `create_model`: an opaque fresh model. */
    method CreateModel()
      modifies this`model
      ensures model == Some(FreshModel)
    {
      model := Some(FreshModel);
    }

    /** `create_callbacks`: the checkpoint prefix from the current job name, and early stopping for inner folds. */
    method CreateCallbacks()
      modifies this`checkpointPrefix, this`callbacks
      ensures var prefix := CheckpointPrefix(config.jobName, testingSubject, rotationSubject, config.selectedModelName, isOuter);
        checkpointPrefix == Some(prefix) && callbacks == Some(Callbacks(prefix, !isOuter))
    {
      var prefix := if isOuter
        then config.jobName + "_test_" + testingSubject + "_config_" + config.selectedModelName
        else config.jobName + "_test_" + testingSubject + "_val_" + rotationSubject + "_config_" + config.selectedModelName;
      checkpointPrefix := Some(prefix);
      callbacks := Some(Callbacks(prefix, !isOuter));
    }

    /** `run_all_steps`: partition, build the model, create the callbacks. */
    method RunAllSteps()
      requires Valid() && |subjects| >= |files| && |labels| >= |files|
      modifies this`datasets, this`model, this`checkpointPrefix, this`callbacks
      ensures Valid() && RecordWellFormed(Snapshot())
      ensures Snapshot() == Setup(old(Snapshot()))
    {
      GetDatasetInfo();
      CreateModel();
      CreateCallbacks();
    }
  }

  // ---------------------------------------------------------------------------
  // Fold
  // ---------------------------------------------------------------------------

  /** The arguments of one `fit` call. */
  datatype FitCall = FitCall(training: BatchPlan, validation: Option<BatchPlan>, epochs: int, initialEpoch: int,
                             callbacks: Option<Callbacks>)

  /** The fold's externally visible steps, in order. */
  datatype Effect =
    | SavedState(key: (string, string), record: FoldRecord, useLock: bool)
    | Fit(call: FitCall)
    | ResultsWritten(history: Option<FitCall>)

  class Fold {
    var foldInfo: FoldTrainingInfo
    var history: Option<FitCall>
    var checkpointEpoch: int
    const rank: Option<int>
    const isOuter: bool
    var effects: seq<Effect>

    ghost predicate Valid()
      reads this, foldInfo
    {
      foldInfo.Valid()
    }

    /** `Fold.__init__`: a new fold-info object, no history, checkpoint epoch 0. */
    constructor (foldIndex: int, config: Config, testingSubject: string, rotationSubject: string,
                 files: seq<string>, subjects: seq<string>, labels: seq<Label>,
                 labelPosition: int, nEpochs: int, rank: Option<int>, isOuter: bool)
      ensures Valid() && fresh(foldInfo)
      ensures foldInfo.Snapshot() == InitialRecord(foldIndex, config, testingSubject, rotationSubject, files, subjects,
                                                   labels, labelPosition, nEpochs, rank, isOuter)
      ensures history == None && checkpointEpoch == 0 && effects == []
      ensures this.rank == rank && this.isOuter == isOuter
    {
      foldInfo := new FoldTrainingInfo(foldIndex, config, testingSubject, rotationSubject, files, subjects,
                                       labels, labelPosition, nEpochs, rank, isOuter);
      history := None;
      checkpointEpoch := 0;
      this.rank := rank;
      this.isOuter := isOuter;
      effects := [];
    }

    /** The log the fold info lives in: the current output path and job name. */
    function StateKey(): (string, string)
      reads this, foldInfo
    {
      (foldInfo.config.outputPath, foldInfo.config.jobName)
    }

    /** `load_state`: the persisted fold info, or None. */
    function LoadState(store: StateStore): (r: Option<FoldRecord>)
      reads this, foldInfo
      ensures r.Some? <==> StateKey() in store
      ensures r.Some? ==> r.value == store[StateKey()]
    {
      if StateKey() in store then Some(store[StateKey()]) else None
    }

    /** `save_state`: writes the fold info under its job name, locking when a rank was given. */
    method SaveState(store: StateStore) returns (store': StateStore)
      modifies this`effects
      ensures store' == store[StateKey() := foldInfo.Snapshot()]
      ensures LoadState(store') == Some(foldInfo.Snapshot())
      ensures effects == old(effects) + [SavedState(StateKey(), foldInfo.Snapshot(), foldInfo.rank.Some?)]
    {
      store' := store[StateKey() := foldInfo.Snapshot()];
      effects := effects + [SavedState(StateKey(), foldInfo.Snapshot(), foldInfo.rank.Some?)];
    }

    /** `load_checkpoint`: adopt the most recent checkpoint and its epoch, or build a fresh model. */
    method LoadCheckpoint(checkpoints: CheckpointStore)
      requires foldInfo.checkpointPrefix.Some?
      modifies this`checkpointEpoch, foldInfo`model
      ensures var key := (foldInfo.config.outputPath, foldInfo.checkpointPrefix.value);
        && (key in checkpoints ==>
             foldInfo.model == Some(Restored(checkpoints[key].weights)) && checkpointEpoch == checkpoints[key].epoch)
        && (key !in checkpoints ==>
             foldInfo.model == Some(FreshModel) && checkpointEpoch == old(checkpointEpoch))
    {
      var key := (foldInfo.config.outputPath, foldInfo.checkpointPrefix.value);
      if key in checkpoints {
        foldInfo.model := Some(Restored(checkpoints[key].weights));
        checkpointEpoch := checkpoints[key].epoch;
      } else {
        foldInfo.CreateModel();
      }
    }

    /**
     * `create_dataset`: batches every non-empty bucket, in dictionary order;
     * succeeds unless training, or validation of an inner fold, got no dataset.
     */
    method CreateDataset() returns (ok: bool)
      requires Valid()
      modifies foldInfo`datasets
      ensures Valid()
      ensures foldInfo.datasets == PlanAll(old(foldInfo.datasets), foldInfo.config.batchSize)
      ensures ok <==> old(foldInfo.datasets)[Training].files != [] &&
                      (isOuter || old(foldInfo.datasets)[Validation].files != [])
    {
      ghost var before := foldInfo.datasets;
      var batchSize := foldInfo.config.batchSize;
      for k := 0 to |SplitOrder|
        invariant Valid()
        invariant foldInfo.datasets.Keys == before.Keys
        invariant forall j :: 0 <= j < k ==>
          foldInfo.datasets[SplitOrder[j]] == Planned(before[SplitOrder[j]], SplitOrder[j], batchSize)
        invariant forall j :: k <= j < |SplitOrder| ==> foldInfo.datasets[SplitOrder[j]] == before[SplitOrder[j]]
      {
        CreateBucketDataset(SplitOrder[k]);
      }
      forall d | d in before
        ensures foldInfo.datasets[d] == Planned(before[d], d, batchSize)
      {
        assert d == SplitOrder[0] || d == SplitOrder[1] || d == SplitOrder[2];
      }
      ok := !(foldInfo.datasets[Training].ds.None? || (!isOuter && foldInfo.datasets[Validation].ds.None?));
    }

    /** One iteration of `create_dataset`: batch the bucket unless it is empty, dropping a small remainder of training only. */
    method CreateBucketDataset(d: Split)
      requires Valid()
      modifies foldInfo`datasets
      ensures Valid()
      ensures foldInfo.datasets == old(foldInfo.datasets)[d := Planned(old(foldInfo.datasets)[d], d, foldInfo.config.batchSize)]
    {
      var batchSize := foldInfo.config.batchSize;
      var b := foldInfo.datasets[d];
      if b.files == [] {
        assert foldInfo.datasets[d := b] == foldInfo.datasets;
        return;
      }
      var drop := false;
      if d == Training {
        var residual := |b.files| % batchSize;
        if (residual as real) < (batchSize as real) / 2.0 {
          drop := true;
        }
      }
      foldInfo.datasets := foldInfo.datasets[d := b.(ds := Some(BatchPlan(b.files, batchSize, drop)))];
    }

    /** `train_model`: nothing when the checkpoint already reached the budget, otherwise `fit` from the checkpoint epoch. */
    method TrainModel()
      requires Training in foldInfo.datasets && Validation in foldInfo.datasets
      requires foldInfo.datasets[Training].ds.Some?
      modifies this`history, this`effects
      ensures TrainingComplete(checkpointEpoch, foldInfo.nEpochs) ==> history == old(history) && effects == old(effects)
      ensures !TrainingComplete(checkpointEpoch, foldInfo.nEpochs) ==>
        var call := FitFor(foldInfo.datasets, foldInfo.callbacks, isOuter, foldInfo.nEpochs, checkpointEpoch);
        history == Some(call) && effects == old(effects) + [Fit(call)]
    {
      if checkpointEpoch != 0 && checkpointEpoch == foldInfo.nEpochs {
        return;
      }
      var validation := if isOuter then None else foldInfo.datasets[Validation].ds;
      var call := FitCall(foldInfo.datasets[Training].ds.value, validation, foldInfo.nEpochs, checkpointEpoch,
                          foldInfo.callbacks);
      history := Some(call);
      effects := effects + [Fit(call)];
    }

    /** `output_results`: hands the history (None if training was skipped) to the results writer. */
    method OutputResults()
      modifies this`effects
      ensures effects == old(effects) + [ResultsWritten(history)]
    {
      effects := effects + [ResultsWritten(history)];
    }

    /** The first half of `run_all_steps`: adopt the persisted fold info and its checkpoint, or set up afresh and save. */
    method Recover(store: StateStore, checkpoints: CheckpointStore) returns (store': StateStore, adopted: bool)
      requires Valid() && StoreWellFormed(store)
      requires |foldInfo.subjects| >= |foldInfo.files| && |foldInfo.labels| >= |foldInfo.files|
      modifies this, foldInfo
      ensures Valid() && StoreWellFormed(store')
      ensures foldInfo == old(foldInfo) || fresh(foldInfo)
      ensures var key := old(StateKey());
        var rec := Recovered(store, key, old(foldInfo.Snapshot()));
        var ckpt := CheckpointFor(rec, checkpoints);
        && (adopted <==> Adoptable(store, key, old(foldInfo.Snapshot())).Some?)
        && store' == (if adopted then store else store[key := rec])
        && foldInfo.Snapshot() == rec.(model := Some(ModelAfter(adopted, ckpt)))
        && checkpointEpoch == (if adopted && ckpt.Some? then ckpt.value.epoch else old(checkpointEpoch))
        && effects == old(effects) + (if adopted then [] else [SavedState(key, rec, old(foldInfo.rank).Some?)])
      ensures history == old(history)
    {
      ghost var key, current := StateKey(), foldInfo.Snapshot();
      var prev := LoadState(store);
      if prev.Some? && foldInfo.testingSubject == prev.value.testingSubject
                    && foldInfo.rotationSubject == prev.value.rotationSubject {
        assert Recovered(store, key, current) == prev.value;
        Adopt(prev.value, checkpoints);
        store' := store;
        adopted := true;
      } else {
        assert Recovered(store, key, current) == Setup(current);
        store' := SetUpAndSave(store);
        adopted := false;
      }
    }

    /** Recovery from a persisted fold info: a new fold-info object holding it, then its checkpoint. */
    method Adopt(prev: FoldRecord, checkpoints: CheckpointStore)
      requires RecordWellFormed(prev)
      modifies this
      ensures Valid() && fresh(foldInfo)
      ensures var ckpt := CheckpointFor(prev, checkpoints);
        && foldInfo.Snapshot() == prev.(model := Some(ModelAfter(true, ckpt)))
        && checkpointEpoch == (if ckpt.Some? then ckpt.value.epoch else old(checkpointEpoch))
      ensures effects == old(effects) && history == old(history)
    {
      foldInfo := new FoldTrainingInfo.FromRecord(prev);
      LoadCheckpoint(checkpoints);
    }

    /** Recovery without a usable persisted fold info: set up afresh and save. */
    method SetUpAndSave(store: StateStore) returns (store': StateStore)
      requires Valid() && StoreWellFormed(store)
      requires |foldInfo.subjects| >= |foldInfo.files| && |foldInfo.labels| >= |foldInfo.files|
      modifies this`effects, foldInfo
      ensures Valid() && StoreWellFormed(store')
      ensures foldInfo.Snapshot() == Setup(old(foldInfo.Snapshot()))
      ensures store' == store[old(StateKey()) := foldInfo.Snapshot()]
      ensures effects == old(effects) + [SavedState(old(StateKey()), foldInfo.Snapshot(), old(foldInfo.rank).Some?)]
    {
      foldInfo.RunAllSteps();
      store' := SaveState(store);
    }

    /**
     * `run_all_steps`: recover or set up the fold info, then build the
     * datasets and, if they allow it, train and write the results.
     */
    method RunAllSteps(store: StateStore, checkpoints: CheckpointStore)
      returns (store': StateStore, adopted: bool, ok: bool)
      requires Valid() && StoreWellFormed(store)
      requires |foldInfo.subjects| >= |foldInfo.files| && |foldInfo.labels| >= |foldInfo.files|
      modifies this, foldInfo
      ensures Valid() && StoreWellFormed(store')
      ensures foldInfo == old(foldInfo) || fresh(foldInfo)
      ensures var key := old(StateKey());
        var rec := Recovered(store, key, old(foldInfo.Snapshot()));
        var ckpt := CheckpointFor(rec, checkpoints);
        && (adopted <==> Adoptable(store, key, old(foldInfo.Snapshot())).Some?)
        && store' == (if adopted then store else store[key := rec])
        && foldInfo.Snapshot() == rec.(datasets := PlanAll(rec.datasets, rec.config.batchSize),
                                       model := Some(ModelAfter(adopted, ckpt)))
        && checkpointEpoch == (if adopted && ckpt.Some? then ckpt.value.epoch else old(checkpointEpoch))
        && (ok <==> rec.datasets[Training].files != [] && (isOuter || rec.datasets[Validation].files != []))
        && var saves := if adopted then [] else [SavedState(key, rec, old(foldInfo.rank).Some?)];
           && (ok ==> foldInfo.datasets[Training].ds.Some? &&
                      effects == old(effects) + saves
                                 + (if TrainingComplete(checkpointEpoch, rec.nEpochs) then []
                                    else [Fit(FitFor(foldInfo.datasets, foldInfo.callbacks, isOuter, rec.nEpochs,
                                                     checkpointEpoch))])
                                 + [ResultsWritten(history)])
           && (!ok ==> effects == old(effects) + saves && history == old(history))
    ensures ok ==> history == if TrainingComplete(checkpointEpoch, foldInfo.nEpochs) then old(history)
                              else Some(FitFor(foldInfo.datasets, foldInfo.callbacks, isOuter, foldInfo.nEpochs, checkpointEpoch))
    {
      store', adopted := Recover(store, checkpoints);
      ok := BuildAndTrain();
    }

    /** The second half of `run_all_steps`: build the datasets and, if they allow it, train and write the results. */
    method BuildAndTrain() returns (ok: bool)
      requires Valid()
      modifies this`history, this`effects, foldInfo`datasets
      ensures Valid()
      ensures foldInfo.datasets == PlanAll(old(foldInfo.datasets), foldInfo.config.batchSize)
      ensures ok <==> old(foldInfo.datasets)[Training].files != [] &&
                      (isOuter || old(foldInfo.datasets)[Validation].files != [])
      ensures ok ==> foldInfo.datasets[Training].ds.Some?
      ensures ok ==>
        effects == old(effects)
                   + (if TrainingComplete(checkpointEpoch, foldInfo.nEpochs) then []
                      else [Fit(FitFor(foldInfo.datasets, foldInfo.callbacks, isOuter, foldInfo.nEpochs, checkpointEpoch))])
                   + [ResultsWritten(history)]
      ensures ok ==> history == if TrainingComplete(checkpointEpoch, foldInfo.nEpochs) then old(history)
                                else Some(FitFor(foldInfo.datasets, foldInfo.callbacks, isOuter, foldInfo.nEpochs, checkpointEpoch))
      ensures !ok ==> effects == old(effects) && history == old(history)
    {
      ok := CreateDataset();
      if ok {
        TrainModel();
        OutputResults();
      }
    }
  }

  /**
   * One fold as a task runs it: `Fold.__init__`, then `run_all_steps`. A fold
   * that recovers no checkpoint always calls `fit`, from epoch 0; one that
   * adopts a checkpoint already at its epoch budget calls no `fit` and writes
   * `None` as its history; one whose datasets are unusable writes no results.
   */
  method RunNewFold(foldIndex: int, config: Config, testing: string, rotation: string,
                    files: seq<string>, subjects: seq<string>, labels: seq<Label>,
                    labelPosition: int, nEpochs: int, rank: Option<int>, isOuter: bool,
                    store: StateStore, checkpoints: CheckpointStore)
    returns (f: Fold, store': StateStore, adopted: bool, ok: bool)
    requires StoreWellFormed(store)
    requires |subjects| >= |files| && |labels| >= |files|
    ensures var init := InitialRecord(foldIndex, config, testing, rotation, files, subjects, labels,
                                      labelPosition, nEpochs, rank, isOuter);
      var rec := Recovered(store, (init.config.outputPath, init.config.jobName), init);
      var saves := if adopted then [] else [SavedState((init.config.outputPath, init.config.jobName), rec, rank.Some?)];
      && (ok && !(adopted && CheckpointFor(rec, checkpoints).Some?) ==>
            && f.checkpointEpoch == 0
            && f.history.Some? && f.history.value.initialEpoch == 0 && f.history.value.epochs == rec.nEpochs
            && rec.checkpointPrefix.Some?
            && f.history.value.callbacks == Some(Callbacks(rec.checkpointPrefix.value, !rec.isOuter))
            && f.effects == saves + [Fit(f.history.value), ResultsWritten(f.history)])
      && (ok && adopted && CheckpointFor(rec, checkpoints).Some?
             && TrainingComplete(CheckpointFor(rec, checkpoints).value.epoch, rec.nEpochs) ==>
            f.history == None && f.effects == [ResultsWritten(None)])
      && (!ok ==> f.history == None && f.effects == saves)
  {
    f := new Fold(foldIndex, config, testing, rotation, files, subjects, labels, labelPosition, nEpochs, rank, isOuter);
    ghost var init := f.foldInfo.Snapshot();
    ghost var key := f.StateKey();
    store', adopted, ok := f.RunAllSteps(store, checkpoints);
    ghost var rec := Recovered(store, key, init);
    ghost var ckpt := CheckpointFor(rec, checkpoints);
    assert f.foldInfo.nEpochs == rec.nEpochs;
    assert f.checkpointEpoch == if adopted && ckpt.Some? then ckpt.value.epoch else 0;
    if ok {
      EffectsOfRun(f.effects, [], if adopted then [] else [SavedState(key, rec, rank.Some?)],
                   TrainingComplete(f.checkpointEpoch, f.foldInfo.nEpochs),
                   FitFor(f.foldInfo.datasets, f.foldInfo.callbacks, isOuter, f.foldInfo.nEpochs, f.checkpointEpoch), f.history);
    }
  }

  /** The effects of a run that trained, or skipped training, and wrote its results, once the prior effects are none. */
  lemma EffectsOfRun(effects: seq<Effect>, prior: seq<Effect>, saves: seq<Effect>, complete: bool, call: FitCall,
                     history: Option<FitCall>)
    requires effects == prior + saves + (if complete then [] else [Fit(call)]) + [ResultsWritten(history)]
    requires prior == []
    ensures !complete ==> effects == saves + [Fit(call), ResultsWritten(history)]
    ensures complete ==> effects == saves + [ResultsWritten(history)]
  {
  }

  /**
   * The fit call for planned buckets: training data, validation data unless
   * outer, the budget, the start epoch and the fold's callbacks.
   */
  function FitFor(datasets: map<Split, Bucket>, callbacks: Option<Callbacks>, isOuter: bool, nEpochs: int,
                  initialEpoch: int): FitCall
    requires Training in datasets && Validation in datasets && datasets[Training].ds.Some?
  {
    FitCall(datasets[Training].ds.value, if isOuter then None else datasets[Validation].ds, nEpochs, initialEpoch,
            callbacks)
  }

  /** The persisted record a fold adopts: the one under its key, when its test and rotation subjects match. */
  function Adoptable(store: StateStore, key: (string, string), current: FoldRecord): (r: Option<FoldRecord>)
    ensures r.Some? <==> key in store && store[key].testingSubject == current.testingSubject
                                      && store[key].rotationSubject == current.rotationSubject
    ensures r.Some? ==> r.value == store[key]
  {
    if key in store && store[key].testingSubject == current.testingSubject
                    && store[key].rotationSubject == current.rotationSubject
    then Some(store[key]) else None
  }

  /** The fold info after recovery: the adopted record, or a freshly computed setup. */
  function Recovered(store: StateStore, key: (string, string), current: FoldRecord): FoldRecord
    requires |current.subjects| >= |current.files| && |current.labels| >= |current.files|
  {
    match Adoptable(store, key, current)
    case Some(prev) => prev
    case None => Setup(current)
  }

  /** The checkpoint `load_checkpoint` would find for a record. */
  function CheckpointFor(rec: FoldRecord, checkpoints: CheckpointStore): Option<Checkpoint> {
    if rec.checkpointPrefix.Some? && (rec.config.outputPath, rec.checkpointPrefix.value) in checkpoints
    then Some(checkpoints[(rec.config.outputPath, rec.checkpointPrefix.value)])
    else None
  }

  /** The model after recovery: a restored checkpoint for an adopted fold that has one, otherwise a fresh model. */
  function ModelAfter(adopted: bool, ckpt: Option<Checkpoint>): ModelState {
    if adopted && ckpt.Some? then Restored(ckpt.value.weights) else FreshModel
  }
}
