# BaseTrainer bookkeeping, modelled in Dafny

This project models the bookkeeping inside `BaseTrainer` (`src/common/trainer.py`) of the
FullSubNet speech-enhancement trainer. That bookkeeping is the part of the class
that does not delegate to torch:

- **the best-score tracker.** `_is_best_epoch` keeps the running extremum `best_score`. It is a
  maximum when `save_max_metric_score` is set and a minimum otherwise. It starts at -inf or
  +inf, and ties count as a new best.
- **the epoch schedule of `train`.** The loop walks `range(start_epoch, epochs + 1)`. A regular
  checkpoint is written every `save_checkpoint_interval` epochs, and 0 disables them.
  Validation runs every `validation_interval` epochs (at least 1). A best checkpoint is
  written when validation finds a new best score.
- **the checkpoint record and file names.** `_save_checkpoint` writes {epoch, best_score,
  optimizer, model} to `latest_model.tar` and to `model_{str(epoch).zfill(4)}.tar`. On a best
  epoch it also writes the record to `best_model.tar`.
- **resume.** `_resume_checkpoint` reads `latest_model.tar`. It sets `start_epoch` to the
  recorded epoch + 1 and restores the best score, optimizer and model.

Layout:

- `scores.dfy` (`Scores`): a score is a real number or one of the two infinities. Python's
  `<=` and `>=` on such values are written out.
- `best_score.dfy` (`BestScore`): the tracker as functions. `Track` folds `_is_best_epoch`
  over a sequence of scores.
- `file_names.dfy` (`FileNames`): Python's `str(int)` and `str.zfill` (as CPython computes
  it, signs included), the per-epoch file name, and `ParseEpochFileName`, its inverse.
- `checkpoints.dfy` (`Checkpoints`): the record and the checkpoints directory, held as a map
  from file name to record. It defines the save (`SaveInto`) and the resume (`ResumeFrom`)
  on that map.
- `schedule.dfy` (`Schedule`): the configuration check and the cadence predicates. `Step` is
  one iteration of the `train` loop and `Run` is the whole loop, both as functions. The lemmas
  about a run are here.
- `trainer.dfy` (`TrainerModel`): class `Trainer`, with the fields the source updates in
  place. `IsBestEpoch`, `SaveCheckpoint`, `ResumeCheckpoint`, `RunEpoch` and `Train` are
  methods, and each one's postcondition ties its new state to the functions above.
- `metrics.dfy` (`Metrics`): the checks `metrics_visualization` makes on its metric names
  before it computes anything.

Model and optimizer state are opaque: they are the type parameters `M` and `O`.
`_train_epoch` and `_validation_epoch` are abstract in the source. Here they are the two
functions of a `Hooks` value: a training step `(epoch, model, optimizer) -> (model,
optimizer)` and a validation score `(epoch, model) -> score`. The snapshot of the
trainer's state also carries two logs: the epochs trained and the scores validation
returned. They exist only so that the order of epochs and the extremum property can be
stated, and `RunIgnoresLogs` shows that they do not affect anything else.

The source's assertions abort the process. The model turns each one into an error value:

- `CheckConfig` returns `Err` when `validation_interval < 1`.
- `ResumeCheckpoint` returns `false` and changes nothing when `latest_model.tar` is missing.
- `CheckMetrics` names the failing check.

## Model

| member | source | states |
|---|---|---|
| `Scores.FiniteComparisons` | src/common/trainer.py:194-197 | on finite scores `>=` and `<=` are the comparisons of the reals |
| `Scores.InfinitiesAreExtremes` | src/common/trainer.py:194-197 | -inf compares below and +inf above every score; only -inf is `<=` -inf and only +inf is `>=` +inf |
| `Scores.LeTotal` | src/common/trainer.py:194-197 | any two scores are comparable, so `_is_best_epoch` always answers one way or the other |
| `Scores.LeTransitive` | src/common/trainer.py:194-197 | `<=` on scores is transitive |
| `BestScore.InitialBest` | src/common/trainer.py:74 | the starting best (-inf in max mode, +inf in min mode) is beaten or tied by every score, so the first validated epoch is always a best epoch; nothing other than itself is at least as good as it |
| `BestScore.NextBest` | src/common/trainer.py:190-201 | the best after one call is at least as good as both the old best and the score, and is one of the two; it is the score exactly when the score is `>=` (max) / `<=` (min) the old best |
| `BestScore.Track` | src/common/trainer.py:190-201 | after any sequence of `_is_best_epoch` calls the best is at least as good as where it started, and is either the starting best or one of the scores passed in |
| `BestScore.TrackSplit` | src/common/trainer.py:190-201 | calling on `xs` and then on `ys` gives the same best as calling on `xs + ys` |
| `BestScore.TrackMonotone` | src/common/trainer.py:194-199 | over any sequence of calls the best score never decreases in max mode and never increases in min mode: the best after j calls is at least as good as the best after i <= j calls |
| `BestScore.TrackIsExtremum` | src/common/trainer.py:190-201 | the tracked best is at least as good as every score seen, so together with `Track` it is the maximum (minimum) of the starting best and those scores |
| `BestScore.TrackFromInitialIsAScore` | src/common/trainer.py:74 | starting from -inf/+inf, after at least one call the best score is one of the scores passed in |
| `FileNames.DecimalString` | src/common/trainer.py:178 | `str(n)` of a non-negative integer is a non-empty string of digits without a leading zero (except "0"), whose decimal value is n |
| `FileNames.IntToString` | src/common/trainer.py:178 | `str(e)` of any integer reads back as e, and starts with '-' iff e is negative |
| `FileNames.ZFill` | src/common/trainer.py:178 | CPython's `zfill` (pad, then move a sign to the front) has length max(len, width), returns a string already that long unchanged, and otherwise puts the '0' padding after a leading sign and before everything else |
| `FileNames.EpochFileName` | src/common/trainer.py:175-178 | the per-epoch name of any integer epoch is `model_` + at least 4 characters + `.tar`, and parsing it gives back that epoch |
| `FileNames.EpochFileNameShape` | src/common/trainer.py:175-178 | for a non-negative epoch the name is `model_` + zeros + `str(epoch)` + `.tar`, and its number part is all digits and at least 4 long |
| `FileNames.EpochFileNameInjective` | src/common/trainer.py:175-178 | two epochs have the same per-epoch name iff they are equal, so per-epoch checkpoints never overwrite each other |
| `FileNames.EpochFileNameNotFixed` | src/common/trainer.py:170-185 | no per-epoch name is `latest_model.tar` or `best_model.tar` |
| `Checkpoints.SaveInto` | src/common/trainer.py:158-185 | after a save, `latest_model.tar` and the per-epoch file hold {epoch, best score, optimizer, model}; `best_model.tar` holds it iff the epoch is a best epoch; the set of files grows by exactly those names; every other file is unchanged |
| `Checkpoints.ResumeFrom` | src/common/trainer.py:128-134 | resume fails iff `latest_model.tar` is missing; otherwise it restarts at the recorded epoch + 1 with the recorded best score, optimizer and model |
| `Checkpoints.SaveThenResume` | src/common/trainer.py:129-134 | resuming right after a save of epoch e with best b, whatever the directory held before, restarts at e + 1 with b and the saved optimizer and model |
| `Checkpoints.SaveKeepsOtherEpochFiles` | src/common/trainer.py:175-178 | a save creates, removes or changes no per-epoch file of another epoch |
| `Schedule.CheckConfig` | src/common/trainer.py:65 | the configuration is accepted iff `validation_interval >= 1`, and unchanged when accepted |
| `Schedule.PyMod` | src/common/trainer.py:311-314 | Python's `%`: the remainder is in [0, b) for a positive divisor b and in (b, 0] for a negative one, and is 0 exactly when the divisor divides the dividend |
| `Schedule.RegularSaveDue` | src/common/trainer.py:311 | a regular checkpoint is due iff the interval is not 0 and divides the epoch |
| `Schedule.ValidationDue` | src/common/trainer.py:314 | validation is due iff the interval divides the epoch |
| `Schedule.ValidationCadence` | src/common/trainer.py:314 | validation epochs come exactly `validation_interval` apart: the next one is that many epochs later and none lies in between |
| `Schedule.EpochRange` | src/common/trainer.py:303 | `range(first, last + 1)` is `first, first + 1, ..., last`: it has last - first + 1 elements, or none when first > last |
| `Schedule.Step` | src/common/trainer.py:304-323 | one epoch trains once with the hooks' step and validates iff validation is due; the best score moves exactly as `_is_best_epoch` moves it, and stays put when there is no validation |
| `Schedule.StepFiles` | src/common/trainer.py:311-321 | in one epoch the per-epoch file is written iff a regular checkpoint is due (interval != 0 and divides the epoch) or it is a best epoch; `best_model.tar` is written iff it is a best epoch; after any save `latest_model.tar` holds the epoch with the updated best score; nothing else changes, and a non-saving epoch leaves the directory as it was |
| `Schedule.Run` | src/common/trainer.py:303 | `train` trains exactly epochs `start_epoch, ..., epochs`, each once, in increasing order, and none when `start_epoch > epochs`; the validation log is only appended to |
| `Schedule.RunBestIsTrack` | src/common/trainer.py:314-321 | after a run the best score is the running extremum of the scores validation returned during the run, starting from the best before it |
| `Schedule.RunBestIsExtremum` | src/common/trainer.py:314-321 | the best after a run is at least as good as the best before and as every score validated in the run; from -inf/+inf it is one of those scores |
| `Schedule.RunKeepsOtherEpochFiles` | src/common/trainer.py:303-312 | per-epoch files of epochs outside the run (such as those written before a resume) are never created, removed or overwritten |
| `Schedule.RunWritesRegularCheckpoints` | src/common/trainer.py:311-312 | every epoch of the run at which a regular checkpoint is due ends with its own per-epoch file recording that epoch |
| `Schedule.RunCreatesOnlyDueFiles` | src/common/trainer.py:311-321 | every per-epoch file that a run creates belongs to an epoch of the run at which a regular checkpoint or validation was due |
| `Schedule.ResumeContinuesRun` | src/common/trainer.py:311-321 | if a run is interrupted after an epoch k that saved, resuming from the directory restarts at k + 1 with the best score, optimizer and model held at the end of epoch k; for training and validation that depend only on the epoch, the model and the optimizer, training on from there ends in the same durable state as the run that was not interrupted |
| `TrainerModel.Trainer.constructor` | src/common/trainer.py:56-74 | a new trainer starts at epoch 1 with best score -inf (max mode) or +inf (min mode), over the given configuration, model, optimizer and checkpoints directory |
| `TrainerModel.Trainer.IsBestEpoch` | src/common/trainer.py:190-201 | the result is true iff the score is `>=` (max mode) / `<=` (min mode) the old best; on true the best becomes the score, on false it is unchanged |
| `TrainerModel.Trainer.SaveCheckpoint` | src/common/trainer.py:144-188 | the directory becomes `SaveInto` of the old one with the record {epoch, current best score, optimizer, model} |
| `TrainerModel.Trainer.ResumeCheckpoint` | src/common/trainer.py:121-142 | succeeds iff `latest_model.tar` exists, then sets start epoch = recorded epoch + 1 and restores best score, optimizer and model; on failure nothing changes |
| `TrainerModel.Trainer.RunEpoch` | src/common/trainer.py:304-323 | one pass of the loop body leaves the trainer in `Step` of its old state |
| `TrainerModel.Trainer.Train` | src/common/trainer.py:302-323 | the loop leaves the trainer in `Run` from `start_epoch` to `epochs` of its old state, so all the `Run` lemmas above hold of it |
| `Metrics.CheckMetrics` | src/common/trainer.py:269-273 | fails with a missing-metric error iff "STOI" or "WB_PESQ" is absent; otherwise fails at the first name in list order that is not registered; accepts iff both are present and every name is registered |

## Left out

- Device selection, `DataParallel`, `GradScaler`/AMP and moving the model between CPU and device are not modelled: they belong to the tensor runtime. The contents of `state_dict` are not modelled either; model and optimizer state are opaque values.
- Files are not modelled. `torch.save`/`torch.load` are left out and the checkpoints directory is an in-memory map. Also left out: `prepare_empty_dir` (the constructor takes the directory's contents as found), the toml dumps and the configuration file written at start-up.
- `_preload_model` and the preload step in `__init__` are file I/O, so they are not modelled. That step reads `config["preloaded_model_path"]` at line 91, while the guard at line 90 reads `config["meta"]["preloaded_model_path"]`.
- Trainer.constructor: models only the bookkeeping fields of `__init__` (lines 56-74). When `resume` is set, `__init__` then calls `_resume_checkpoint`; here the caller does that step by calling `ResumeCheckpoint` after the constructor.
- Printing, the console colours, `ExecutionTime` and the tensorboard `writer` are not modelled: they only produce output.
- `spec_audio_visualization` and the STFT/iSTFT partials are not modelled: they are plotting and signal processing done in foreign libraries.
- Metrics.CheckMetrics: models only the assertions of `metrics_visualization`. The parallel metric computation, the means, `transform_pesq_range` and the `(stoi + pesq) / 2` result are foreign, concurrent and floating-point code. The set of registered metric names is a parameter, because `util.metrics` is not part of this model.
- `_print_networks` is not modelled: it only prints a parameter count taken from the foreign model.
- `_set_models_to_train_mode` and `_set_models_to_eval_mode` are not modelled: they switch a mode of the foreign model and touch none of the bookkeeping.
- `_train_epoch` and `_validation_epoch` raise `NotImplementedError` in the base class. They are the two functions of `Hooks`. `clip_grad_norm_value` is read only for such subclasses and is not modelled.
- Scores have no NaN. A NaN validation score compares false with `>=` and `<=`, so it is never a best score. The model does not include it.
- Scores are exact reals, not floats. The tracker only compares and assigns scores, so rounding plays no part.
- Schedule.ResumeContinuesRun: the record holds only epoch, best score, optimizer and model (lines 159-168). The `GradScaler` created at line 41, random-number generator state and the data loaders' position are not saved, so a resumed run the source would execute can differ from the uninterrupted one. The lemma's `Hooks` make training a function of epoch, model and optimizer alone, and its equality holds only under that assumption.
- The default arguments `save_max_metric_score=True` of `_is_best_epoch` (line 190) and `is_best_epoch=False` of `_save_checkpoint` (line 144) are required parameters of `IsBestEpoch` and `SaveCheckpoint`. Every call in `train` passes the value the default would give or an explicit one, so the behaviour is the same.
- Python assertions abort the process. The model returns an error value instead and leaves the state unchanged.
