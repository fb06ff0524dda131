/** Whole runs of the program: what every run keeps, when the database stays in sync, and what rollback restores. */
module Runs {
  import opened Wrappers
  import opened Transponder
  import opened Cli
  import opened Breakout
  import opened Validation
  import opened Redis
  import opened Database
  import opened Changes
  import opened Handlers
  import opened Convergence
  import opened Sync
  import opened Equivalence
  import opened System

  // ---- When one action keeps the database in sync ----

  /** A commit that reboots, that changes a port, or that changes every interface safely; it must not unset a handled module leaf. */
  ghost predicate CommitSafe(a: Config, b: Config, reboot: bool) {
    reboot || (NoModuleLoss(a, b) && (PortsChanged(a, b) || forall k :: Safe(a, b, k)))
  }

  /** A dry commit leaves the database alone: it stays in sync if the configurations agree on every leaf a rebuild stores. */
  ghost predicate CommitKeeps(a: Config, b: Config, reboot: bool, dry: bool) {
    if dry then SameLeaves(a, b) else CommitSafe(a, b, reboot)
  }

  ghost predicate SafeAction(s: Machine, x: Action)
    requires s.log != []
  {
    match x
    case Edit(_) => true
    case Commit(reboot, dry) => Accepts(s.file) ==> CommitKeeps(s.log[0], s.file, reboot, dry)
    case Rollback(number, reboot, dry) => InLog(s.log, number) ==> CommitKeeps(s.log[0], s.log[number + 1], reboot, dry)
    case Reboot(dry) => Accepts(s.file) && !dry ==> SameLeaves(s.log[0], s.file)
  }

  lemma {:induction false} BothInSync(db: Db, a: Config, b: Config)
    requires Sound(a) && Sound(b) && InSync(db, a)
    ensures InSync(db, b) <==> SameLeaves(a, b)
  {
    hide Lookup, RebuildAt, Sound, SameLeaves;
    SameRebuildSameLeaves(a, b);
  }

  /** The incremental part of a commit: it fails exactly if a handled module leaf is lost, and else ends in sync exactly if the change is safe. */
  lemma {:induction false} DiffSync(before: Db, a: Config, b: Config, after: Db, v: Verdict)
    requires Sound(a) && Sound(b) && InSync(before, a) && DiffRan(before, a, b, after, v)
    ensures v == if NoModuleLoss(a, b) then Done else Failed
    ensures v == Done ==> (InSync(after, b) <==> PortsChanged(a, b) || forall k :: Safe(a, b, k))
    ensures v == Done && InSync(after, b) <==> CommitSafe(a, b, false)
  {
    hide Sound, InSync, IsDiff, RanAs, NoModuleLoss, PortsChanged, Safe;
    var d, opts, intfs, mid, reboot, error :|
      && IsDiff(a, b, d)
      && RanAs(before, b, a, d, opts, intfs, mid, reboot, error)
      && (if reboot then v == Done && InSync(after, b) else after == mid && v == if error.None? then Done else Failed);
    HandleDiffConverges(before, a, b, d, opts, intfs, mid, reboot, error);
  }

  lemma {:induction false} CommitSync(s: Machine, c: Config, reboot: bool, dry: bool, s': Machine, v: Verdict)
    requires Legal(s) && Sound(c) && InSync(s.db, s.log[0]) && Committed(s, c, reboot, dry, s', v)
    ensures v != Failed && InSync(s'.db, s'.log[0]) <==> CommitKeeps(s.log[0], c, reboot, dry)
    ensures v != Refused
  {
    hide Sound, InSync, DiffRan, CommitSafe, Wired, SameLeaves;
    if dry {
      BothInSync(s.db, s.log[0], c);
    } else if !reboot {
      DiffSync(s.db, s.log[0], c, s'.db, v);
    } else {
      RebootIsSafe(s.log[0], c);
    }
  }

  lemma {:induction false} RebootIsSafe(a: Config, b: Config)
    ensures CommitSafe(a, b, true)
  {
  }

  // ---- What every action keeps ----

  /** Every reachable state is legal: the file is wired, and every logged configuration would be accepted again. */
  lemma {:induction false} StepKeepsLegal(s: Machine, x: Action, s': Machine, v: Verdict)
    requires Legal(s) && StepRel(s, x, s', v)
    ensures Legal(s')
  {
    hide Wired, Accepts, Lean, DiffRan, InSync, Execute;
    match x {
      case Edit(cmd) =>
        if Execute(s.file, cmd).Ok? {
          CommandKeepsWiring(s.file, cmd);
          CommandKeepsLean(s.file, cmd);
        }
      case Rollback(number, _, _) =>
        if InLog(s.log, number) {
          assert Sound(s.log[number + 1]);
          SoundIsLean(s.log[number + 1]);
        }
      case _ =>
    }
  }

  /** The log only grows, by one configuration at a time. */
  lemma {:induction false} LogGrows(s: Machine, x: Action, s': Machine, v: Verdict)
    requires s.log != [] && StepRel(s, x, s', v)
    ensures s'.log == s.log || s'.log == [s'.log[0]] + s.log
    ensures v == Refused ==> s'.log == s.log && s'.db == s.db
  {
    hide Accepts, RanAs, IsDiff, InSync, Execute;
  }

  /** An action on a database in sync with the newest commit leaves it so, without failing, exactly if it is safe. */
  lemma {:induction false} StepSync(s: Machine, x: Action, s': Machine, v: Verdict)
    requires Legal(s) && StepRel(s, x, s', v) && InSync(s.db, s.log[0])
    ensures v != Failed && InSync(s'.db, s'.log[0]) <==> SafeAction(s, x)
  {
    hide Wired, Accepts, Committed, InSync, Execute, CommitKeeps, SameLeaves;
    match x {
      case Commit(reboot, dry) =>
        if Accepts(s.file) {
          assert Sound(s.file);
          CommitSync(s, s.file, reboot, dry, s', v);
        }
      case Rollback(number, reboot, dry) =>
        if InLog(s.log, number) {
          assert Sound(s.log[number + 1]);
          CommitSync(s, s.log[number + 1], reboot, dry, s', v);
        }
      case Reboot(dry) =>
        RebootSync(s, dry, s', v);
      case _ =>
    }
  }

  lemma {:induction false} RebootSync(s: Machine, dry: bool, s': Machine, v: Verdict)
    requires Legal(s) && StepRel(s, Reboot(dry), s', v) && InSync(s.db, s.log[0])
    ensures v != Failed && InSync(s'.db, s'.log[0]) <==> SafeAction(s, Reboot(dry))
  {
    hide Wired, Accepts, InSync, SameLeaves;
    if Accepts(s.file) && !dry {
      assert Sound(s.file) && Sound(s.log[0]);
      InSyncBoth(s'.db, s.file, s.log[0]);
    }
  }

  lemma {:induction false} InSyncBoth(db: Db, a: Config, b: Config)
    requires Sound(a) && Sound(b) && InSync(db, a)
    ensures InSync(db, b) <==> SameLeaves(b, a)
  {
    hide Sound, InSync;
    BothInSync(db, a, b);
    SameLeavesBack(a, b);
  }

  lemma {:induction false} SameLeavesBack(a: Config, b: Config)
    requires Sound(a) && Sound(b)
    ensures SameLeaves(a, b) <==> SameLeaves(b, a)
  {
    hide Sound, SameLeaves, RebuildAt;
    SameRebuildSameLeaves(a, b);
    SameRebuildSameLeaves(b, a);
  }

  // ---- Whole runs ----

  /** A run: the states and verdicts of the actions, one after the other, from the state init leaves. */
  ghost predicate Run(states: seq<Machine>, actions: seq<Action>, verdicts: seq<Verdict>) {
    && |states| == |actions| + 1 && |verdicts| == |actions|
    && Initial(states[0])
    && (forall i :: 0 <= i < |states| ==> states[i].log != [])
    && (forall i :: 0 <= i < |actions| ==> StepRel(states[i], actions[i], states[i + 1], verdicts[i]))
  }

  ghost predicate Initial(s: Machine) {
    s.file == DefaultConfig() && s.log == [DefaultConfig()] && InSync(s.db, DefaultConfig())
  }

  lemma {:induction false} RunIsLegal(states: seq<Machine>, actions: seq<Action>, verdicts: seq<Verdict>, i: nat)
    requires Run(states, actions, verdicts) && i <= |actions|
    ensures Legal(states[i])
  {
    hide StepRel, Legal;
    if i == 0 {
      DefaultIsSound();
      LegalAtFirst(states[0]);
    } else {
      RunIsLegal(states, actions, verdicts, i - 1);
      StepKeepsLegal(states[i - 1], actions[i - 1], states[i], verdicts[i - 1]);
    }
  }

  /** The database agreed with the newest commit, and no action failed, up to this point. */
  ghost predicate GoodSoFar(states: seq<Machine>, verdicts: seq<Verdict>, n: nat)
    requires n < |states| && n <= |verdicts| && forall i :: 0 <= i <= n ==> states[i].log != []
  {
    (forall i :: 0 <= i < n ==> verdicts[i] != Failed) && (forall i :: 0 <= i <= n ==> InSync(states[i].db, states[i].log[0]))
  }

  ghost predicate SafeSoFar(states: seq<Machine>, actions: seq<Action>, n: nat)
    requires n < |states| && n <= |actions| && forall i :: 0 <= i <= n ==> states[i].log != []
  {
    forall i :: 0 <= i < n ==> SafeAction(states[i], actions[i])
  }

  /**
   Convergence over whole runs: from init on, the database equals the rebuild of the newest commit after every action,
   and none fails, exactly if every action is safe.
   */
  lemma {:induction false} RunConverges(states: seq<Machine>, actions: seq<Action>, verdicts: seq<Verdict>, n: nat)
    requires Run(states, actions, verdicts) && n <= |actions|
    ensures GoodSoFar(states, verdicts, n) <==> SafeSoFar(states, actions, n)
  {
    hide StepRel, Legal, InSync, SafeAction;
    if n > 0 {
      RunConverges(states, actions, verdicts, n - 1);
      RunIsLegal(states, actions, verdicts, n - 1);
      if InSync(states[n - 1].db, states[n - 1].log[0]) {
        StepSync(states[n - 1], actions[n - 1], states[n], verdicts[n - 1]);
      }
    }
  }

  /** Over a whole run the log only grows: an earlier log is the tail of every later one. */
  lemma {:induction false} LogsGrow(states: seq<Machine>, actions: seq<Action>, verdicts: seq<Verdict>, i: nat, j: nat)
    requires Run(states, actions, verdicts) && i <= j <= |actions|
    ensures |states[i].log| <= |states[j].log| && states[j].log[|states[j].log| - |states[i].log|..] == states[i].log
    decreases j
  {
    hide StepRel, Initial;
    if i < j {
      LogsGrow(states, actions, verdicts, i, j - 1);
      LogGrows(states[j - 1], actions[j - 1], states[j], verdicts[j - 1]);
    }
  }

  // ---- Commits and reboots ----

  /** A commit is refused, without a trace, exactly if the file is not accepted; else the file becomes the newest commit. */
  lemma {:induction false} CommitLogs(s: Machine, reboot: bool, dry: bool, s': Machine, v: Verdict)
    requires s.log != [] && StepRel(s, Commit(reboot, dry), s', v)
    ensures v == Refused <==> !Accepts(s.file)
    ensures v == Refused ==> s' == s
    ensures v != Refused ==> s'.file == s.file && s'.log == [s.file] + s.log
    ensures v != Refused && dry ==> s'.db == s.db && v == Done
    ensures v != Refused && reboot && !dry ==> InSync(s'.db, s.file) && v == Done
  {
    hide Accepts, InSync, RanAs, IsDiff;
  }

  /** A reboot is refused exactly if the file is not accepted, and else stores what the file asks for, committed or not. */
  lemma {:induction false} RebootLoadsFile(s: Machine, dry: bool, s': Machine, v: Verdict)
    requires s.log != [] && StepRel(s, Reboot(dry), s', v)
    ensures v == if Accepts(s.file) then Done else Refused
    ensures s'.file == s.file && s'.log == s.log
    ensures if v == Done && !dry then InSync(s'.db, s.file) else s'.db == s.db
  {
    hide Accepts, InSync;
  }

  // ---- Rollback ----

  /** A rollback within the log is never refused: the new head is the configuration number + 1 commits back. */
  lemma {:induction false} RollbackRestores(s: Machine, number: int, reboot: bool, dry: bool, s': Machine, v: Verdict)
    requires Legal(s) && StepRel(s, Rollback(number, reboot, dry), s', v)
    ensures if 0 <= number + 1 < |s.log| then v != Refused && s'.log == [s.log[number + 1]] + s.log && s'.file == s.log[number + 1]
            else v == Refused && s' == s
  {
    hide Wired, InSync, Accepts;
    if InLog(s.log, number) {
      assert Sound(s.log[number + 1]);
    }
  }

  /** Rolling back 0 twice restores the configuration that was the newest commit before. */
  lemma {:induction false} RollbackTwice(s: Machine, s': Machine, s'': Machine, v: Verdict, w: Verdict, reboot: bool, dry: bool)
    requires Legal(s) && |s.log| >= 2
    requires StepRel(s, Rollback(0, reboot, dry), s', v) && s'.log != [] && StepRel(s', Rollback(0, reboot, dry), s'', w)
    ensures s''.log[0] == s.log[0] && s''.file == s.log[0] && |s''.log| == |s.log| + 2
  {
    hide StepRel, Legal;
    RollbackRestores(s, 0, reboot, dry, s', v);
    StepKeepsLegal(s, Rollback(0, reboot, dry), s', v);
    RollbackRestores(s', 0, reboot, dry, s'', w);
  }
}
