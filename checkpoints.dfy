/**
 * The checkpoint record and the checkpoints directory, held in memory as a
 * map from file name to record. Model and optimizer state are opaque values
 * of the type parameters `M` and `O`.
 */
module Checkpoints {
  import opened Wrappers
  import opened Scores
  import opened FileNames

  /** What `_save_checkpoint` writes: {epoch, best_score, optimizer, model}. */
  datatype Record<M, O> = Record(epoch: int, bestScore: Score, optimizer: O, model: M)

  /** The checkpoints directory: file name to the record saved under it. */
  type Store<M, O> = map<string, Record<M, O>>

  /**
   * The directory after one `_save_checkpoint`: `latest_model.tar` and the
   * per-epoch file hold the record, `best_model.tar` does too exactly when
   * `isBestEpoch`, and every other file is as it was.
   */
  function SaveInto<M, O>(store: Store<M, O>, rec: Record<M, O>, isBestEpoch: bool): (r: Store<M, O>)
    ensures LatestName in r && r[LatestName] == rec
    ensures EpochFileName(rec.epoch) in r && r[EpochFileName(rec.epoch)] == rec
    ensures isBestEpoch ==> BestName in r && r[BestName] == rec
    ensures r.Keys == store.Keys + {LatestName, EpochFileName(rec.epoch)} + (if isBestEpoch then {BestName} else {})
    ensures forall k :: k in store && k != LatestName && k != EpochFileName(rec.epoch) && !(isBestEpoch && k == BestName) ==>
              r[k] == store[k]
  {
    EpochFileNameNotFixed(rec.epoch);
    var withLatest := store[LatestName := rec];
    var withEpoch := withLatest[EpochFileName(rec.epoch) := rec];
    if isBestEpoch then withEpoch[BestName := rec] else withEpoch
  }

  /** What `_resume_checkpoint` restores from the latest record. */
  datatype ResumePoint<M, O> = ResumePoint(startEpoch: int, bestScore: Score, optimizer: O, model: M)

  /** `_resume_checkpoint` aborts when there is no latest checkpoint. */
  datatype ResumeError = MissingLatestCheckpoint

  /**
   * Resuming reads `latest_model.tar`: training restarts at the epoch after
   * the one it records, with its best score, optimizer and model.
   */
  function ResumeFrom<M, O>(store: Store<M, O>): (r: Result<ResumePoint<M, O>, ResumeError>)
    ensures r.Ok? <==> LatestName in store
    ensures r.Ok? ==> r.value.startEpoch == store[LatestName].epoch + 1 &&
                      r.value.bestScore == store[LatestName].bestScore &&
                      r.value.optimizer == store[LatestName].optimizer &&
                      r.value.model == store[LatestName].model
  {
    if LatestName !in store then Err(MissingLatestCheckpoint)
    else
      var latest := store[LatestName];
      Ok(ResumePoint(latest.epoch + 1, latest.bestScore, latest.optimizer, latest.model))
  }

  /**
   * Save/resume round trip: whatever the directory held before, resuming
   * right after a save at epoch e with best b restarts at e + 1 with b.
   */
  lemma SaveThenResume<M, O>(store: Store<M, O>, rec: Record<M, O>, isBestEpoch: bool)
    ensures ResumeFrom(SaveInto(store, rec, isBestEpoch)) ==
            Ok(ResumePoint(rec.epoch + 1, rec.bestScore, rec.optimizer, rec.model))
  {
  }

  /** A save touches no per-epoch file but its own. */
  lemma SaveKeepsOtherEpochFiles<M, O>(store: Store<M, O>, rec: Record<M, O>, isBestEpoch: bool, other: int)
    requires other != rec.epoch
    ensures var r := SaveInto(store, rec, isBestEpoch);
      (EpochFileName(other) in r <==> EpochFileName(other) in store) &&
      (EpochFileName(other) in store ==> r[EpochFileName(other)] == store[EpochFileName(other)])
  {
    EpochFileNameInjective(other, rec.epoch);
    EpochFileNameNotFixed(other);
  }
}
