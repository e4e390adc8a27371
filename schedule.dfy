/**
 * The epoch schedule of `train`, as a specification on values: which
 * epochs run, when a regular checkpoint is written, when validation runs,
 * and when a best checkpoint is written. `_train_epoch` and
 * `_validation_epoch` are abstract in the trainer; here they are supplied
 * as the two functions of a `Hooks` value.
 */
module Schedule {
  import opened Wrappers
  import opened Scores
  import opened BestScore
  import opened FileNames
  import opened Checkpoints

  /** The `trainer.train` and `trainer.validation` settings the loop reads. */
  datatype Config = Config(
    epochs: int,
    saveCheckpointInterval: int,
    validationInterval: int,
    saveMaxMetricScore: bool)

  /** A configuration that passed the `validation_interval >= 1` assertion. */
  type ValidConfig = c: Config | c.validationInterval >= 1 witness Config(0, 0, 1, true)

  datatype ConfigError = ValidationIntervalBelowOne

  /** The constructor's assertion on the validation interval, as an error result. */
  function CheckConfig(c: Config): (r: Result<ValidConfig, ConfigError>)
    ensures r.Ok? <==> c.validationInterval >= 1
    ensures r.Ok? ==> r.value == c
  {
    if c.validationInterval >= 1 then Ok(c) else Err(ValidationIntervalBelowOne)
  }

  /**
   * Python's `a % b`: floored division, so a non-zero remainder takes the
   * sign of `b` (Dafny's `%` is Euclidean and never negative).
   */
  function PyMod(a: int, b: int): (r: int)
    requires b != 0
    ensures b > 0 ==> 0 <= r < b
    ensures b < 0 ==> b < r <= 0
    ensures r == 0 <==> a % b == 0
  {
    var m := a % b;
    if b < 0 && m != 0 then m + b else m
  }

  /**
   * A regular checkpoint is due at `epoch`: the interval is not 0 (which
   * disables them) and divides the epoch, for every sign of either.
   */
  predicate RegularSaveDue(interval: int, epoch: int): (due: bool)
    ensures due <==> interval != 0 && epoch % interval == 0
  {
    interval != 0 && PyMod(epoch, interval) == 0
  }

  /** Validation is due at `epoch`: the interval divides the epoch. */
  predicate ValidationDue(interval: int, epoch: int): (due: bool)
    requires interval >= 1
    ensures due <==> epoch % interval == 0
  {
    PyMod(epoch, interval) == 0
  }

  /** Adding a multiple of `k` to a remainder leaves the remainder. */
  lemma ModOfMultiplePlus(q: int, k: int, d: int)
    requires k >= 1 && 0 <= d < k
    ensures (q * k + d) % k == d
  {
    var x := q * k + d;
    var n := x / k - q;
    assert x == (x / k) * k + x % k;
    assert n * k == d - x % k;
  }

  /**
   * Validation epochs come exactly `interval` apart: the next one after a
   * validation epoch is `interval` epochs later, and none lies in between.
   */
  lemma ValidationCadence(interval: int, epoch: int)
    requires interval >= 1 && ValidationDue(interval, epoch)
    ensures ValidationDue(interval, epoch + interval)
    ensures forall e :: epoch < e < epoch + interval ==> !ValidationDue(interval, e)
  {
    var q := epoch / interval;
    assert epoch == q * interval;
    ModOfMultiplePlus(q + 1, interval, 0);
    assert epoch + interval == (q + 1) * interval + 0;
    forall e | epoch < e < epoch + interval
      ensures !ValidationDue(interval, e)
    {
      ModOfMultiplePlus(q, interval, e - epoch);
    }
  }

  /** The epochs `range(first, last + 1)` visits: `first, first + 1, ..., last`, none if `first > last`. */
  function EpochRange(first: int, last: int): (r: seq<int>)
    decreases last - first
    ensures |r| == (if first <= last then last - first + 1 else 0)
    ensures forall i :: 0 <= i < |r| ==> r[i] == first + i
  {
    if first > last then [] else [first] + EpochRange(first + 1, last)
  }

  /** The subclass's `_train_epoch` and `_validation_epoch`, as functions of the epoch and the state. */
  datatype Hooks<!M, !O> = Hooks(trainEpoch: (int, M, O) -> (M, O), validate: (int, M) -> Score)

  /**
   * The trainer's state between epochs: best score, model, optimizer and
   * checkpoints directory, plus two logs of what the loop did (the epochs it
   * trained and the scores validation returned).
   */
  datatype Snapshot<M, O> = Snapshot(
    best: Score,
    model: M,
    optimizer: O,
    store: Store<M, O>,
    trained: seq<int>,
    validated: seq<Score>)

  /** The state a run leaves behind for a later process: everything but the logs. */
  function Durable<M, O>(s: Snapshot<M, O>): Snapshot<M, O> {
    s.(trained := [], validated := [])
  }

  /** `_save_checkpoint(epoch, isBestEpoch)` on a snapshot. */
  function Save<M, O>(s: Snapshot<M, O>, epoch: int, isBestEpoch: bool): Snapshot<M, O> {
    s.(store := SaveInto(s.store, Record(epoch, s.best, s.optimizer, s.model), isBestEpoch))
  }

  /** The model and optimizer after `_train_epoch(epoch)`. */
  function Trained<M, O>(hooks: Hooks<M, O>, epoch: int, s: Snapshot<M, O>): Snapshot<M, O> {
    var next := hooks.trainEpoch(epoch, s.model, s.optimizer);
    s.(model := next.0, optimizer := next.1, trained := s.trained + [epoch])
  }

  /** The score `_validation_epoch(epoch)` returns when epoch `epoch` starts from `s`. */
  function ScoreAt<M, O>(hooks: Hooks<M, O>, epoch: int, s: Snapshot<M, O>): Score {
    hooks.validate(epoch, hooks.trainEpoch(epoch, s.model, s.optimizer).0)
  }

  /** Epoch `epoch`, started from `s`, validates and finds a best score. */
  predicate BestAt<M, O>(cfg: ValidConfig, hooks: Hooks<M, O>, epoch: int, s: Snapshot<M, O>) {
    ValidationDue(cfg.validationInterval, epoch) &&
    AtLeastAsGood(cfg.saveMaxMetricScore, ScoreAt(hooks, epoch, s), s.best)
  }

  /** Epoch `epoch`, started from `s`, writes at least one checkpoint. */
  predicate SavesAt<M, O>(cfg: ValidConfig, hooks: Hooks<M, O>, epoch: int, s: Snapshot<M, O>) {
    RegularSaveDue(cfg.saveCheckpointInterval, epoch) || BestAt(cfg, hooks, epoch, s)
  }

  /**
   * One iteration of the loop in `train`: it trains once, validates iff
   * validation is due, and moves the best score as `_is_best_epoch` moves it.
   * What it does to the checkpoints directory is `StepFiles`.
   */
  function Step<M, O>(cfg: ValidConfig, hooks: Hooks<M, O>, epoch: int, s: Snapshot<M, O>): (r: Snapshot<M, O>)
    ensures var next := hooks.trainEpoch(epoch, s.model, s.optimizer);
      r.model == next.0 && r.optimizer == next.1
    ensures r.trained == s.trained + [epoch]
    ensures var due := ValidationDue(cfg.validationInterval, epoch);
      r.validated == s.validated + (if due then [ScoreAt(hooks, epoch, s)] else []) &&
      r.best == (if due then NextBest(cfg.saveMaxMetricScore, ScoreAt(hooks, epoch, s), s.best) else s.best)
  {
    var t := Trained(hooks, epoch, s);
    var u := if RegularSaveDue(cfg.saveCheckpointInterval, epoch) then Save(t, epoch, false) else t;
    if ValidationDue(cfg.validationInterval, epoch) then
      var score := hooks.validate(epoch, u.model);
      var v := u.(validated := u.validated + [score]);
      if AtLeastAsGood(cfg.saveMaxMetricScore, score, v.best) then Save(v.(best := score), epoch, true)
      else v
    else u
  }

  /**
   * The loop `for epoch in range(first, last + 1)` of `train`, started from
   * `s`: it trains exactly the epochs `first, ..., last`, once each, in
   * increasing order, and only appends to the validation log.
   */
  function Run<M, O>(cfg: ValidConfig, hooks: Hooks<M, O>, first: int, last: int, s: Snapshot<M, O>): (r: Snapshot<M, O>)
    decreases last - first
    ensures r.trained == s.trained + EpochRange(first, last)
    ensures |s.validated| <= |r.validated| && r.validated[..|s.validated|] == s.validated
  {
    if first > last then
      s
    else
      var t := Step(cfg, hooks, first, s);
      var r := Run(cfg, hooks, first + 1, last, t);
      assert EpochRange(first, last) == [first] + EpochRange(first + 1, last);
      assert r.validated[..|s.validated|] == r.validated[..|t.validated|][..|s.validated|];
      r
  }

  /**
   * What one epoch does to the checkpoints directory. The per-epoch file is
   * written iff a regular or a best checkpoint is due, `best_model.tar` iff
   * this is a best epoch. After any save `latest_model.tar` holds the
   * trainer's state at the end of the epoch, updated best score included.
   * Nothing else in the directory changes.
   */
  lemma StepFiles<M, O>(cfg: ValidConfig, hooks: Hooks<M, O>, epoch: int, s: Snapshot<M, O>)
    ensures var r := Step(cfg, hooks, epoch, s);
      var score := ScoreAt(hooks, epoch, s);
      var best := BestAt(cfg, hooks, epoch, s);
      var saves := SavesAt(cfg, hooks, epoch, s);
      && (EpochFileName(epoch) in r.store <==> EpochFileName(epoch) in s.store || saves)
      && (saves ==>
            r.store[LatestName] == Record(epoch, r.best, r.optimizer, r.model) &&
            r.store[EpochFileName(epoch)] == Record(epoch, r.best, r.optimizer, r.model))
      && (best ==> r.store[BestName] == Record(epoch, score, r.optimizer, r.model))
      && (!best ==> (BestName in r.store <==> BestName in s.store) &&
                    (BestName in s.store ==> r.store[BestName] == s.store[BestName]))
      && (!saves ==> r.store == s.store)
      && (forall k :: k != LatestName && k != BestName && k != EpochFileName(epoch) ==>
            (k in r.store <==> k in s.store) && (k in s.store ==> r.store[k] == s.store[k]))
  {
    EpochFileNameNotFixed(epoch);
  }

  /** One epoch reads only the durable state, never the logs. */
  lemma StepIgnoresLogs<M, O>(cfg: ValidConfig, hooks: Hooks<M, O>, epoch: int, s1: Snapshot<M, O>, s2: Snapshot<M, O>)
    requires Durable(s1) == Durable(s2)
    ensures Durable(Step(cfg, hooks, epoch, s1)) == Durable(Step(cfg, hooks, epoch, s2))
  {
    assert s1.best == s2.best && s1.model == s2.model && s1.optimizer == s2.optimizer && s1.store == s2.store;
  }

  /** The run stops at `last`: its final iteration is epoch `last`. */
  lemma {:induction false} RunLast<M, O>(cfg: ValidConfig, hooks: Hooks<M, O>, first: int, last: int, s: Snapshot<M, O>)
    requires first <= last
    ensures Run(cfg, hooks, first, last, s) == Step(cfg, hooks, last, Run(cfg, hooks, first, last - 1, s))
    decreases last - first
  {
    if first < last {
      RunLast(cfg, hooks, first + 1, last, Step(cfg, hooks, first, s));
    }
  }

  /** Running to `mid` and then on to `last` is one run to `last`. */
  lemma {:induction false} RunSplit<M, O>(cfg: ValidConfig, hooks: Hooks<M, O>, first: int, mid: int, last: int, s: Snapshot<M, O>)
    requires first - 1 <= mid <= last
    ensures Run(cfg, hooks, first, last, s) == Run(cfg, hooks, mid + 1, last, Run(cfg, hooks, first, mid, s))
    decreases mid - first
  {
    if first <= mid {
      RunSplit(cfg, hooks, first + 1, mid, last, Step(cfg, hooks, first, s));
    }
  }

  /**
   * After a run the best score is the running extremum of the scores that
   * validation returned during the run, starting from the best score before it.
   */
  lemma {:induction false} RunBestIsTrack<M, O>(cfg: ValidConfig, hooks: Hooks<M, O>, first: int, last: int, s: Snapshot<M, O>)
    decreases last - first
    ensures var r := Run(cfg, hooks, first, last, s);
      |s.validated| <= |r.validated| && r.validated[..|s.validated|] == s.validated &&
      r.best == Track(cfg.saveMaxMetricScore, s.best, r.validated[|s.validated|..])
  {
    var r := Run(cfg, hooks, first, last, s);
    if first > last {
      assert r.validated[|s.validated|..] == [];
    } else {
      var t := Step(cfg, hooks, first, s);
      RunBestIsTrack(cfg, hooks, first + 1, last, t);
      var ys := r.validated[|t.validated|..];
      if ValidationDue(cfg.validationInterval, first) {
        var x := ScoreAt(hooks, first, s);
        var xs := r.validated[|s.validated|..];
        assert xs == [x] + ys by {
          assert r.validated[..|t.validated|] == s.validated + [x];
        }
        assert xs[1..] == ys;
      } else {
        assert r.validated[|s.validated|..] == ys;
      }
    }
  }

  /**
   * The best score after a run is at least as good as before it and as every
   * score validated during it (never decreasing in max mode, never
   * increasing in min mode); from the initial -inf/+inf and with at least one
   * validation it is one of those scores.
   */
  lemma RunBestIsExtremum<M, O>(cfg: ValidConfig, hooks: Hooks<M, O>, first: int, last: int, s: Snapshot<M, O>)
    ensures var r := Run(cfg, hooks, first, last, s);
      |s.validated| <= |r.validated| &&
      var scores := r.validated[|s.validated|..];
      AtLeastAsGood(cfg.saveMaxMetricScore, r.best, s.best) &&
      (forall i :: 0 <= i < |scores| ==> AtLeastAsGood(cfg.saveMaxMetricScore, r.best, scores[i])) &&
      (s.best == InitialBest(cfg.saveMaxMetricScore) && scores != [] ==> r.best in scores)
  {
    var r := Run(cfg, hooks, first, last, s);
    RunBestIsTrack(cfg, hooks, first, last, s);
    TrackIsExtremum(cfg.saveMaxMetricScore, s.best, r.validated[|s.validated|..]);
    if s.best == InitialBest(cfg.saveMaxMetricScore) && r.validated[|s.validated|..] != [] {
      TrackFromInitialIsAScore(cfg.saveMaxMetricScore, r.validated[|s.validated|..]);
    }
  }

  /**
   * Per-epoch files of epochs outside the run, such as those of an earlier
   * process before a resume, are never overwritten.
   */
  lemma {:induction false} RunKeepsOtherEpochFiles<M, O>(cfg: ValidConfig, hooks: Hooks<M, O>, first: int, last: int, s: Snapshot<M, O>, other: int)
    requires other < first || last < other
    decreases last - first
    ensures var r := Run(cfg, hooks, first, last, s);
      (EpochFileName(other) in r.store <==> EpochFileName(other) in s.store) &&
      (EpochFileName(other) in s.store ==> r.store[EpochFileName(other)] == s.store[EpochFileName(other)])
  {
    if first <= last {
      var t := Step(cfg, hooks, first, s);
      StepFiles(cfg, hooks, first, s);
      EpochFileNameInjective(other, first);
      EpochFileNameNotFixed(other);
      RunKeepsOtherEpochFiles(cfg, hooks, first + 1, last, t, other);
    }
  }

  /**
   * Every epoch of the run at which a regular checkpoint is due ends up with
   * its own per-epoch file, recording that epoch.
   */
  lemma {:induction false} RunWritesRegularCheckpoints<M, O>(cfg: ValidConfig, hooks: Hooks<M, O>, first: int, last: int, s: Snapshot<M, O>, e: int)
    requires first <= e <= last && RegularSaveDue(cfg.saveCheckpointInterval, e)
    decreases last - first
    ensures var r := Run(cfg, hooks, first, last, s);
      EpochFileName(e) in r.store && r.store[EpochFileName(e)].epoch == e
  {
    var t := Step(cfg, hooks, first, s);
    if e == first {
      StepFiles(cfg, hooks, first, s);
      RunKeepsOtherEpochFiles(cfg, hooks, first + 1, last, t, first);
    } else {
      RunWritesRegularCheckpoints(cfg, hooks, first + 1, last, t, e);
    }
  }

  /**
   * A per-epoch file that a run creates belongs to one of its epochs at which
   * a regular checkpoint or validation was due.
   */
  lemma {:induction false} RunCreatesOnlyDueFiles<M, O>(cfg: ValidConfig, hooks: Hooks<M, O>, first: int, last: int, s: Snapshot<M, O>, e: int)
    requires EpochFileName(e) in Run(cfg, hooks, first, last, s).store && EpochFileName(e) !in s.store
    decreases last - first
    ensures first <= e <= last
    ensures RegularSaveDue(cfg.saveCheckpointInterval, e) || ValidationDue(cfg.validationInterval, e)
  {
    if first > last {
      assert false;
    } else {
      var t := Step(cfg, hooks, first, s);
      StepFiles(cfg, hooks, first, s);
      if EpochFileName(e) in t.store {
        EpochFileNameInjective(e, first);
        EpochFileNameNotFixed(e);
      } else {
        RunCreatesOnlyDueFiles(cfg, hooks, first + 1, last, t, e);
      }
    }
  }

  /**
   * The logs play no part in what a run does: two snapshots that agree on
   * their durable state lead to runs that agree on theirs.
   */
  lemma {:induction false} RunIgnoresLogs<M, O>(cfg: ValidConfig, hooks: Hooks<M, O>, first: int, last: int, s1: Snapshot<M, O>, s2: Snapshot<M, O>)
    requires Durable(s1) == Durable(s2)
    ensures Durable(Run(cfg, hooks, first, last, s1)) == Durable(Run(cfg, hooks, first, last, s2))
    decreases last - first
  {
    if first <= last {
      StepIgnoresLogs(cfg, hooks, first, s1, s2);
      RunIgnoresLogs(cfg, hooks, first + 1, last, Step(cfg, hooks, first, s1), Step(cfg, hooks, first, s2));
    }
  }

  /**
   * Resume round trip. If the run from `first` to `last` is interrupted after an
   * epoch `k` that wrote a checkpoint, `_resume_checkpoint` on the directory
   * left behind restarts at epoch `k + 1` with the best score, optimizer and
   * model the trainer held at the end of epoch `k`; a trainer in that state
   * (its logs aside) that then trains from `k + 1` to `last` ends in the same
   * durable state as the uninterrupted run.
   */
  lemma ResumeContinuesRun<M, O>(cfg: ValidConfig, hooks: Hooks<M, O>, first: int, k: int, last: int, s: Snapshot<M, O>, resumed: Snapshot<M, O>)
    requires first <= k <= last
    requires SavesAt(cfg, hooks, k, Run(cfg, hooks, first, k - 1, s))
    requires resumed.store == Run(cfg, hooks, first, k, s).store
    requires ResumeFrom(resumed.store).Ok?
    requires resumed.best == ResumeFrom(resumed.store).value.bestScore
    requires resumed.optimizer == ResumeFrom(resumed.store).value.optimizer
    requires resumed.model == ResumeFrom(resumed.store).value.model
    ensures var mid := Run(cfg, hooks, first, k, s);
      ResumeFrom(mid.store) == Ok(ResumePoint(k + 1, mid.best, mid.optimizer, mid.model))
    ensures Durable(Run(cfg, hooks, k + 1, last, resumed)) == Durable(Run(cfg, hooks, first, last, s))
  {
    var before := Run(cfg, hooks, first, k - 1, s);
    var mid := Run(cfg, hooks, first, k, s);
    RunLast(cfg, hooks, first, k, s);
    StepFiles(cfg, hooks, k, before);
    assert Durable(resumed) == Durable(mid);
    RunIgnoresLogs(cfg, hooks, k + 1, last, resumed, mid);
    RunSplit(cfg, hooks, first, k, last, s);
  }
}
