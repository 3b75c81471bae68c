/**
 * The part of one training configuration that the scheduler and the fold
 * executor read. A configuration is a JSON document in the repository; only
 * the keys used by the modelled code appear here.
 */
module TrainingConfig {

  /** A batch size TensorFlow accepts: a non-positive one would raise. */
  type BatchSize = b: int | b > 0 witness 1

  datatype Config = Config(
    jobName: string,                 // config['job_name']
    outputPath: string,              // config['output_path']
    testSubjects: seq<string>,       // config['test_subjects']
    validationSubjects: seq<string>, // config['validation_subjects']
    subjectList: seq<string>,        // config['subject_list']
    shuffleTheFolds: bool,           // config['shuffle_the_folds']
    epochs: int,                     // config['hyperparameters']['epochs']
    batchSize: BatchSize,            // config['hyperparameters']['batch_size']
    selectedModelName: string        // config['selected_model_name']
  )
}
