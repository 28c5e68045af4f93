// Continuity of the learned model: stored high-water marks of its revisions, and on Linux
// a durable marker from before any change of mail or model until its verified checkpoint.
module Continuity {
  import opened Wrappers

  datatype Stats = Stats(spam: nat, ham: nat)
  datatype Mark = Unset | Reached(n: nat) | Corrupt
  datatype Marks = Marks(spam: Mark, ham: Mark)

  predicate MarkNotLower(a: Mark, b: Mark) { a.Reached? ==> b.Reached? && a.n <= b.n }

  predicate NotLower(a: Marks, b: Marks) { MarkNotLower(a.spam, b.spam) && MarkNotLower(a.ham, b.ham) }

  // The floor of a revision: the stored mark, or while there is none the number of
  // distinct messages the store knows to have been learned.
  function FloorOf(m: Mark, trained: nat): nat { if m.Reached? then m.n else trained }

  // The model is readable and has lost nothing.
  predicate Intact(stats: Stats, marks: Marks, trained: Stats) {
    && !marks.spam.Corrupt? && !marks.ham.Corrupt?
    && stats.spam >= FloorOf(marks.spam, trained.spam) && stats.ham >= FloorOf(marks.ham, trained.ham)
  }

  // ensureBayesContinuity's own test: it consults the store's count for both revisions as
  // soon as one mark is missing.
  predicate Regressed(stats: Stats, marks: Marks, trained: Stats) {
    || (marks.spam.Reached? && stats.spam < marks.spam.n)
    || (marks.ham.Reached? && stats.ham < marks.ham.n)
    || ((marks.spam.Unset? || marks.ham.Unset?) && (stats.spam < trained.spam || stats.ham < trained.ham))
  }

  // A mark is one of the values known for the revision (the reading, the stored mark, the
  // store's count where it was consulted) and below none of them.
  predicate Highest(m: Mark, reading: nat, was: Mark, counted: Option<nat>) {
    && m.Reached? && m.n >= reading && (was.Reached? ==> m.n >= was.n) && (counted.Some? ==> m.n >= counted.value)
    && (m.n == reading || m == was || counted == Some(m.n))
  }

  function Most(a: nat, b: nat): nat { if a > b then a else b }

  datatype Policy = Policy(active: bool, purgeEnabled: bool)

  const PROTECT := Policy(false, false)

  class Instance {
    const linux: bool
    var marks: Marks
    var marker: bool
    var rollbackAt: Option<int>
    var protectSince: Option<int>
    var activeSince: Option<int>
    // The configuration in memory, and the one on disk that the next command loads.
    var policy: Policy
    var saved: Policy
    // Mail or model changed since the last successful checkpoint.
    ghost var dirty: bool
    // In a calm instance no write fails.
    const calm: bool

    ghost predicate Valid()
      reads this
    {
      && (linux && !marker ==> !dirty)
      // A Linux configuration with permanent deletion enabled is refused.
      && (linux ==> !policy.purgeEnabled && !saved.purgeEnabled)
    }

    constructor (linux: bool, active: bool, calm: bool)
      ensures Valid() && marks == Marks(Unset, Unset) && !dirty && this.linux == linux && this.calm == calm
    {
      this.calm := calm;
      this.linux, policy, saved := linux, Policy(active, false), Policy(active, false);
      marks, marker, dirty := Marks(Unset, Unset), false, false;
      rollbackAt, protectSince, activeSince := None, None, None;
    }

    // The user changes the configuration between two commands.
    method Configure(wanted: Policy) returns (ok: bool)
      requires Valid()
      modifies this`saved
      ensures Valid() && saved == if ok then wanted else old(saved)
      ensures ok && linux ==> !wanted.purgeEnabled
      ensures calm ==> (ok <==> !(linux && wanted.purgeEnabled))
    {
      if linux && wanted.purgeEnabled { return false; }
      ok := Write();
      if ok { saved := wanted; }
    }

    // Any write to the settings may fail, and the process may stop there.
    method Write() returns (ok: bool)
      ensures calm ==> ok
    {
      ok := *;
      ok := ok || calm;
    }

    // compareBayesHighWater: read only.
    method CompareHighWater(stats: Stats, trained: Stats) returns (ok: bool)
      ensures ok <==> Intact(stats, marks, trained)
    {
      if marks.spam.Corrupt? || stats.spam < FloorOf(marks.spam, trained.spam) { return false; }
      if marks.ham.Corrupt? || stats.ham < FloorOf(marks.ham, trained.ham) { return false; }
      ok := true;
    }

    // linuxModelCheckpoint: a regressed model is never checkpointed, and success raises the
    // marks to what was read. `secured` stands for persistence checks and the backup.
    method Checkpoint(stats: Option<Stats>, trained: Stats, secured: bool) returns (ok: bool)
      requires Valid()
      modifies this`marks, this`dirty
      ensures Valid() && NotLower(old(marks), marks)
      ensures ok ==> stats.Some? && secured && Intact(stats.value, old(marks), trained) && !dirty
      ensures ok ==> marks == Marks(Reached(stats.value.spam), Reached(stats.value.ham))
      ensures dirty ==> old(dirty)
      ensures calm ==> (ok <==> stats.Some? && secured && Intact(stats.value, old(marks), trained))
    {
      if stats.None? { return false; }
      ok := CompareHighWater(stats.value, trained);
      if !ok || !secured { return false; }
      ok := Write();
      if !ok { return; }
      marks := marks.(spam := Reached(stats.value.spam));
      ok := Write();
      if !ok { return; }
      marks := marks.(ham := Reached(stats.value.ham));
      dirty := false;
    }

    method SetMarker(value: bool) returns (ok: bool)
      requires linux && !value ==> !dirty
      modifies this`marker
      ensures marker == if ok then value else old(marker)
      ensures calm ==> ok
    {
      ok := Write();
      if ok { marker := value; }
    }

    method PrepareMutation(stats: Option<Stats>, trained: Stats, secured: bool) returns (ok: bool)
      requires Valid()
      modifies this`marks, this`dirty, this`marker
      ensures Valid() && NotLower(old(marks), marks) && (dirty ==> old(dirty))
      ensures ok ==> marker && !dirty && stats.Some? && Intact(stats.value, old(marks), trained)
      ensures ok ==> marks == Marks(Reached(stats.value.spam), Reached(stats.value.ham))
      ensures calm ==> (ok <==> stats.Some? && secured && Intact(stats.value, old(marks), trained))
    {
      ok := SetMarker(true);
      if ok { ok := Checkpoint(stats, trained, secured); }
    }

    method FinishMutation(stats: Option<Stats>, trained: Stats, secured: bool) returns (ok: bool)
      requires Valid()
      modifies this`marks, this`dirty, this`marker
      ensures Valid() && NotLower(old(marks), marks)
      ensures ok ==> !marker && !dirty && stats.Some? && Intact(stats.value, old(marks), trained)
      ensures ok ==> marks == Marks(Reached(stats.value.spam), Reached(stats.value.ham))
      ensures calm ==> (ok <==> stats.Some? && secured && Intact(stats.value, old(marks), trained))
    {
      ok := SetMarker(true);
      if !ok { return; }
      ok := Checkpoint(stats, trained, secured);
      if ok { ok := SetMarker(false); }
    }

    // ensureBayesContinuity: marks only rise; a regression switches to protect mode and
    // turns permanent deletion off.
    method EnsureContinuity(stats: Option<Stats>, trained: Stats, now: int) returns (ok: bool, rolledBack: bool)
      requires Valid()
      modifies this`marks, this`rollbackAt, this`protectSince, this`activeSince, this`policy, this`saved
      ensures Valid() && NotLower(old(marks), marks)
      ensures ok && stats.None? ==> !rolledBack && old(policy) == PROTECT && marks == old(marks)
      ensures ok && stats.Some? ==> (rolledBack <==> Regressed(stats.value, old(marks), trained))
      // Each mark becomes the highest value known for it, and no more than that.
      ensures ok && stats.Some? ==>
        var uncounted := old(marks.spam.Reached? && marks.ham.Reached?);
        && Highest(marks.spam, stats.value.spam, old(marks.spam), if uncounted then None else Some(trained.spam))
        && Highest(marks.ham, stats.value.ham, old(marks.ham), if uncounted then None else Some(trained.ham))
      ensures ok && stats.Some? && !rolledBack ==>
        marks == Marks(Reached(stats.value.spam), Reached(stats.value.ham)) && rollbackAt.None?
      ensures !rolledBack && ok ==> protectSince == old(protectSince) && activeSince == old(activeSince)
      // Protect mode starts now, unless an earlier rollback already holds it.
      ensures rolledBack ==> rollbackAt == if old(rollbackAt).Some? then old(rollbackAt) else Some(now)
      ensures rolledBack && (old(policy) != PROTECT || old(rollbackAt).None?) ==> protectSince == Some(now) && activeSince.None?
      ensures rolledBack && old(policy) == PROTECT && old(rollbackAt).Some? ==>
        protectSince == old(protectSince) && activeSince == old(activeSince)
      ensures calm ==> (ok <==> if stats.Some? then !old(marks.spam.Corrupt?) && !old(marks.ham.Corrupt?) else old(policy) == PROTECT)
      ensures rolledBack ==> ok && policy == saved == PROTECT && rollbackAt.Some?
      ensures !rolledBack && ok ==> policy == old(policy) && saved == old(saved)
      ensures policy in {old(policy), PROTECT} && saved in {old(saved), PROTECT}
    {
      rolledBack := false;
      if stats.None? { return policy == PROTECT, false; }
      if marks.spam.Corrupt? || marks.ham.Corrupt? { return false, false; }
      var s := stats.value;
      var regressed := (marks.spam.Reached? && s.spam < marks.spam.n) || (marks.ham.Reached? && s.ham < marks.ham.n);
      var highest := Stats(Most(s.spam, FloorOf(marks.spam, 0)), Most(s.ham, FloorOf(marks.ham, 0)));
      if marks.spam.Unset? || marks.ham.Unset? {
        regressed := regressed || s.spam < trained.spam || s.ham < trained.ham;
        highest := Stats(Most(highest.spam, trained.spam), Most(highest.ham, trained.ham));
      }
      ok := RaiseMarks(highest);
      if !ok { return; }
      if !regressed {
        ok := Write();
        if ok { rollbackAt := None; }
        return;
      }
      ok := EnterProtect(now);
      rolledBack := ok;
    }

    // Asking again about the same model, whatever the store counts by then, repeats the
    // answer: an intact model never becomes a rollback by being checked.
    method EnsureTwice(stats: Stats, trained: Stats, again: Stats, now: int, later: int)
      returns (ok: bool, first: bool, second: bool)
      requires Valid()
      modifies this`marks, this`rollbackAt, this`protectSince, this`activeSince, this`policy, this`saved
      ensures Valid() && (ok ==> first == second)
      ensures ok && !first ==> policy == old(policy) && saved == old(saved)
      ensures calm && !old(marks.spam.Corrupt?) && !old(marks.ham.Corrupt?) ==> ok
    {
      second := false;
      ok, first := EnsureContinuity(Some(stats), trained, now);
      if ok { ok, second := EnsureContinuity(Some(stats), again, later); }
    }

    method RaiseMarks(highest: Stats) returns (ok: bool)
      requires NotLower(marks, Marks(Reached(highest.spam), Reached(highest.ham)))
      modifies this`marks
      ensures NotLower(old(marks), marks)
      ensures ok ==> marks == Marks(Reached(highest.spam), Reached(highest.ham))
      ensures calm ==> ok
    {
      ok := Write();
      if !ok { return; }
      marks := marks.(spam := Reached(highest.spam));
      ok := Write();
      if ok { marks := marks.(ham := Reached(highest.ham)); }
    }

    method EnterProtect(now: int) returns (ok: bool)
      modifies this`rollbackAt, this`protectSince, this`activeSince, this`policy, this`saved
      ensures policy == PROTECT && (ok ==> saved == PROTECT)
      ensures ok ==> rollbackAt == if old(rollbackAt).Some? then old(rollbackAt) else Some(now)
      ensures ok && (old(policy) != PROTECT || old(rollbackAt).None?) ==> protectSince == Some(now) && activeSince.None?
      ensures old(policy) == PROTECT && old(rollbackAt).Some? ==> protectSince == old(protectSince) && activeSince == old(activeSince)
      ensures calm ==> ok
      ensures saved in {old(saved), PROTECT}
    {
      var restart := policy != PROTECT || rollbackAt.None?;
      policy := PROTECT;
      ok := Write();
      if ok { saved := policy; }
      if ok && restart {
        ok := Write();
        if ok {
          protectSince := Some(now);
          ok := Write();
        }
        if ok { activeSince := None; }
      }
      if ok && rollbackAt.None? {
        ok := Write();
        if ok { rollbackAt := Some(now); }
      }
    }

    // A changing command from start to end. A run checks continuity first and may delete
    // permanently when it is done; a restore does neither. `readings` are the model's answers
    // in order. The result says whether mail or model could be touched at all.
    method Command(run: bool, readings: seq<Option<Stats>>, trained: seq<Stats>, secured: seq<bool>, now: int) returns (started: bool, ok: bool)
      requires Valid() && |readings| == |trained| == |secured| == 3
      modifies this
      ensures Valid() && NotLower(old(marks), marks)
      ensures started && linux ==> readings[1].Some? && AtLeast(readings[1].value, old(marks)) && (ok ==> !marker && !dirty)
      ensures started && run && readings[0].Some? && Regressed(readings[0].value, old(marks), trained[0]) ==> policy == saved == PROTECT
      ensures started && linux && !run ==>
        (Regressed(readings[1].value, old(marks), trained[1]) <==> OnlyCounted(readings[1].value, old(marks), trained[1]))
      ensures !started && dirty ==> old(dirty)
      ensures started && linux && ok ==> readings[2].Some? && marks == Marks(Reached(readings[2].value.spam), Reached(readings[2].value.ham))
      // When no write fails, nothing but the model decides.
      ensures calm && !run && !linux ==> started && ok
      ensures calm && !run && linux ==>
        (started <==> readings[1].Some? && secured[1] && Intact(readings[1].value, old(marks), trained[1]))
      ensures calm && run && linux && readings[0].Some? && !Regressed(readings[0].value, old(marks), trained[0])
              && !old(marks.spam.Corrupt?) && !old(marks.ham.Corrupt?) ==>
        (started <==> readings[1].Some? && secured[1] && readings[1].value.spam >= readings[0].value.spam && readings[1].value.ham >= readings[0].value.ham)
      ensures calm && linux && started ==>
        (ok <==> readings[2].Some? && secured[2] && readings[2].value.spam >= readings[1].value.spam && readings[2].value.ham >= readings[1].value.ham)
    {
      hide Highest;
      started, ok := false, true;
      policy := saved;
      ghost var known := marks;
      if run {
        var rolledBack;
        ok, rolledBack := EnsureContinuity(readings[0], trained[0], now);
        if !ok { return; }
      }
      ghost var checked := marks;
      if linux {
        ok := PrepareMutation(readings[1], trained[1], secured[1]);
        if !ok { return; }
        IntactAtLeast(readings[1].value, known, checked, trained[1]);
        TestsDiffer(readings[1].value, checked, trained[1]);
      }
      started, dirty := true, true;
      if linux { ok := FinishMutation(readings[2], trained[2], secured[2]); }
      if run && ok && policy.purgeEnabled {
        // Automatic permanent deletion, after the marker was cleared.
        dirty := true;
      }
    }
  }

  // ----- Whole histories -----

  datatype Action =
    | Execute(run: bool, readings: seq<Option<Stats>>, trained: seq<Stats>, secured: seq<bool>)
    | Change(policy: Policy)

  predicate Complete(a: Action) {
    a.Execute? ==> |a.readings| == |a.trained| == |a.secured| == 3
  }

  // Any history of runs, restores and configuration changes, each of which may be cut off
  // at any write. Stored marks never fall, and on Linux no command that could touch mail
  // or model began on a model below any mark ever stored.
  method Live(s: Instance, actions: seq<Action>) returns (ghost history: seq<Marks>, ghost began: seq<bool>)
    requires s.Valid() && forall i :: 0 <= i < |actions| ==> Complete(actions[i])
    modifies s
    ensures s.Valid() && |history| == |actions| + 1 && |began| == |actions|
    ensures history[0] == old(s.marks) && history[|actions|] == s.marks
    ensures forall i, j :: 0 <= i <= j < |history| ==> NotLower(history[i], history[j])
    ensures s.linux ==> forall i, j :: 0 <= i <= j < |actions| && began[j] && actions[j].Execute? ==>
      Complete(actions[j]) && actions[j].readings[1].Some? && AtLeast(actions[j].readings[1].value, history[i])
    ensures s.linux && !s.marker ==> !s.dirty
  {
    history, began := [s.marks], [];
    for k := 0 to |actions|
      invariant s.Valid() && |history| == k + 1 && |began| == k && history[k] == s.marks && history[0] == old(s.marks)
      invariant forall i, j :: 0 <= i <= j < |history| ==> NotLower(history[i], history[j])
      invariant s.linux ==> forall i, j :: 0 <= i <= j < k && began[j] && actions[j].Execute? ==>
        Complete(actions[j]) && actions[j].readings[1].Some? && AtLeast(actions[j].readings[1].value, history[i])
    {
      ghost var before, started := s.marks, false;
      match actions[k] {
        case Change(policy) => var ok := s.Configure(policy);
        case Execute(run, readings, trained, secured) =>
          var now: int := *;
          var touched, ok := s.Command(run, readings, trained, secured, now);
          started := touched;
          if touched && s.linux {
            forall i | 0 <= i <= k ensures AtLeast(readings[1].value, history[i]) {
              AtLeastEarlier(readings[1].value, history[i], before);
            }
          }
      }
      forall i | 0 <= i <= k ensures NotLower(history[i], s.marks) {
        assert NotLower(history[i], history[k]);
      }
      history, began := history + [s.marks], began + [started];
    }
  }

  lemma AtLeastEarlier(s: Stats, earlier: Marks, later: Marks)
    requires NotLower(earlier, later) && AtLeast(s, later)
    ensures AtLeast(s, earlier)
  {
  }

  // No revision is below its stored mark.
  predicate AtLeast(s: Stats, m: Marks) {
    (m.spam.Reached? ==> s.spam >= m.spam.n) && (m.ham.Reached? ==> s.ham >= m.ham.n)
  }

  lemma IntactAtLeast(s: Stats, old': Marks, new': Marks, trained: Stats)
    requires NotLower(old', new') && Intact(s, new', trained)
    ensures AtLeast(s, old') && AtLeast(s, new')
  {
  }

  // One mark is missing, and the other revision is below the store's count but not its mark.
  predicate OnlyCounted(s: Stats, m: Marks, trained: Stats) {
    (m.spam.Unset? && m.ham.Reached? && s.ham < trained.ham) || (m.ham.Unset? && m.spam.Reached? && s.spam < trained.spam)
  }

  // The two tests agree about a model whose marks are both known, and the checkpoint is the
  // weaker one about a model with a mark missing: exactly there a reading may pass it and
  // still count as a regression.
  lemma TestsDiffer(s: Stats, m: Marks, trained: Stats)
    requires !m.spam.Corrupt? && !m.ham.Corrupt?
    ensures Regressed(s, m, trained) <==> (!Intact(s, m, trained) || OnlyCounted(s, m, trained))
  {
  }
}
