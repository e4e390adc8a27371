/**
 * `BaseTrainer` itself: the fields its bookkeeping updates in place and the
 * methods that update them. Each method is tied to the specification in the
 * modules it imports.
 */
module TrainerModel {
  import opened Wrappers
  import opened Scores
  import opened BestScore
  import opened FileNames
  import opened Checkpoints
  import opened Schedule

  class Trainer<M, O> {
    /** The `trainer.train` and `trainer.validation` settings, already checked. */
    const config: ValidConfig
    var startEpoch: int
    var bestScore: Score
    var model: M
    var optimizer: O
    /** The checkpoints directory. */
    var checkpoints: Store<M, O>
    /** The epochs `_train_epoch` has been called with, in order. */
    ghost var trained: seq<int>
    /** The scores `_validation_epoch` has returned, in order. */
    ghost var validated: seq<Score>

    /** The trainer's fields as a value of the specification. */
    ghost function State(): Snapshot<M, O>
      reads this
    {
      Snapshot(bestScore, model, optimizer, checkpoints, trained, validated)
    }

    /**
     * The bookkeeping part of `__init__`: training starts at epoch 1 with the
     * best score at -inf (max mode) or +inf (min mode), over the checkpoints
     * directory as it is found.
     */
    constructor (config: ValidConfig, model: M, optimizer: O, checkpoints: Store<M, O>)
      ensures this.config == config
      ensures startEpoch == 1 && bestScore == InitialBest(config.saveMaxMetricScore)
      ensures this.model == model && this.optimizer == optimizer && this.checkpoints == checkpoints
      ensures trained == [] && validated == []
    {
      this.config := config;
      this.model := model;
      this.optimizer := optimizer;
      this.checkpoints := checkpoints;
      startEpoch := 1;
      bestScore := if config.saveMaxMetricScore then NegInf else PosInf;
      trained := [];
      validated := [];
    }

    /**
     * `_is_best_epoch`: the score is best iff it is at least as good as the
     * best so far (`>=` in max mode, `<=` in min mode); then it becomes the
     * best score, otherwise the best score stays.
     */
    method IsBestEpoch(score: Score, saveMaxMetricScore: bool) returns (isBest: bool)
      modifies this`bestScore
      ensures isBest == AtLeastAsGood(saveMaxMetricScore, score, old(bestScore))
      ensures bestScore == (if isBest then score else old(bestScore))
      ensures bestScore == NextBest(saveMaxMetricScore, score, old(bestScore))
    {
      if saveMaxMetricScore && Ge(score, bestScore) {
        bestScore := score;
        isBest := true;
      } else if !saveMaxMetricScore && Le(score, bestScore) {
        bestScore := score;
        isBest := true;
      } else {
        isBest := false;
      }
    }

    /**
     * `_save_checkpoint`: the record {epoch, best score, optimizer, model}
     * goes to `latest_model.tar`, to the per-epoch file and, on a best epoch,
     * to `best_model.tar`.
     */
    method SaveCheckpoint(epoch: int, isBestEpoch: bool)
      modifies this`checkpoints
      ensures checkpoints == SaveInto(old(checkpoints), Record(epoch, bestScore, optimizer, model), isBestEpoch)
    {
      var rec := Record(epoch, bestScore, optimizer, model);
      checkpoints := checkpoints[LatestName := rec];
      checkpoints := checkpoints[EpochFileName(epoch) := rec];
      if isBestEpoch {
        checkpoints := checkpoints[BestName := rec];
      }
    }

    /**
     * `_resume_checkpoint`: without `latest_model.tar` it fails and changes
     * nothing; otherwise the start epoch, best score, optimizer and model
     * come from the latest record.
     */
    method ResumeCheckpoint() returns (ok: bool)
      modifies this`startEpoch, this`bestScore, this`optimizer, this`model
      ensures ok <==> LatestName in checkpoints
      ensures ok ==> ResumeFrom(checkpoints) == Ok(ResumePoint(startEpoch, bestScore, optimizer, model))
      ensures !ok ==> startEpoch == old(startEpoch) && bestScore == old(bestScore) &&
                      optimizer == old(optimizer) && model == old(model)
    {
      if LatestName !in checkpoints {
        return false;
      }
      var latest := checkpoints[LatestName];
      startEpoch := latest.epoch + 1;
      bestScore := latest.bestScore;
      optimizer := latest.optimizer;
      model := latest.model;
      ok := true;
    }

    /**
     * The body of the loop in `train` for one epoch: train, save a regular
     * checkpoint when one is due, and validate when validation is due,
     * saving a best checkpoint on a new best score.
     */
    method RunEpoch(epoch: int, hooks: Hooks<M, O>)
      modifies this`bestScore, this`model, this`optimizer, this`checkpoints, this`trained, this`validated
      ensures State() == Step(config, hooks, epoch, old(State()))
    {
      trained := trained + [epoch];
      var next := hooks.trainEpoch(epoch, model, optimizer);
      model, optimizer := next.0, next.1;
      assert State() == Trained(hooks, epoch, old(State()));
      if RegularSaveDue(config.saveCheckpointInterval, epoch) {
        SaveCheckpoint(epoch, false);
      }
      if ValidationDue(config.validationInterval, epoch) {
        var metricScore := hooks.validate(epoch, model);
        validated := validated + [metricScore];
        var isBest := IsBestEpoch(metricScore, config.saveMaxMetricScore);
        if isBest {
          SaveCheckpoint(epoch, true);
        }
      }
    }

    /** `train`: the loop over `range(start_epoch, epochs + 1)`. */
    method Train(hooks: Hooks<M, O>)
      modifies this`bestScore, this`model, this`optimizer, this`checkpoints, this`trained, this`validated
      ensures State() == Run(config, hooks, startEpoch, config.epochs, old(State()))
    {
      var epoch := startEpoch;
      while epoch <= config.epochs
        invariant Run(config, hooks, epoch, config.epochs, State()) ==
                  Run(config, hooks, startEpoch, config.epochs, old(State()))
        decreases config.epochs - epoch
      {
        RunEpoch(epoch, hooks);
        epoch := epoch + 1;
      }
    }
  }
}
