/** The oopt program over whole runs: the configuration file, the commit log, the device database (cmd/oopt/main.go). */
module System {
  import opened Wrappers
  import opened Transponder
  import opened Cli
  import opened Breakout
  import opened Sums
  import opened Validation
  import opened Redis
  import opened Database
  import opened Wiring
  import opened Changes
  import opened Handlers
  import opened Moves
  import opened Sync

  /** The working file, the committed configurations with the newest first, and the rows of the database. */
  datatype Machine = Machine(file: Config, log: seq<Config>, db: Db)

  datatype Action =
    | Edit(cmd: Command)
    | Commit(reboot: bool, dry: bool)
    | Rollback(number: int, reboot: bool, dry: bool)
    | Reboot(dry: bool)

  /** Done; refused before anything was committed or written; or failed on the way. */
  datatype Verdict = Done | Refused | Failed

  // ---- One step ----

  /** handleDiff between the two newest commits, and the reboot it may ask for. */
  ghost predicate DiffRan(before: Db, older: Config, newer: Config, after: Db, v: Verdict) {
    exists d, opts, intfs, mid, reboot, error ::
      && IsDiff(older, newer, d)
      && RanAs(before, newer, older, d, opts, intfs, mid, reboot, error)
      && (if reboot then v == Done && InSync(after, newer) else after == mid && v == if error.None? then Done else Failed)
  }

  /** A commit of a validated configuration. */
  ghost predicate Committed(s: Machine, c: Config, reboot: bool, dry: bool, s': Machine, v: Verdict)
    requires s.log != []
  {
    && s'.file == c && s'.log == [c] + s.log
    && (if dry then s'.db == s.db && v == Done
        else if reboot then InSync(s'.db, c) && v == Done
        else DiffRan(s.db, s.log[0], c, s'.db, v))
  }

  /** The configuration rollback n returns to: the one n + 1 commits back. */
  predicate InLog(log: seq<Config>, number: int) {
    0 <= number + 1 < |log|
  }

  /** What an action may do; s' and the verdict are not determined where map order or the old rows matter. */
  ghost predicate StepRel(s: Machine, x: Action, s': Machine, v: Verdict)
    requires s.log != []
  {
    match x
    case Edit(cmd) =>
      (match Execute(s.file, cmd)
       case Ok(c) => s' == s.(file := c) && v == Done
       case Err(_) => s' == s && v == Refused)
    case Commit(reboot, dry) =>
      if Accepts(s.file) then Committed(s, s.file, reboot, dry, s', v) else s' == s && v == Refused
    case Rollback(number, reboot, dry) =>
      if !InLog(s.log, number) then s' == s && v == Refused
      else
        var c := s.log[number + 1];
        if Accepts(c) then Committed(s, c, reboot, dry, s', v) else s' == s.(file := c) && v == Refused
    case Reboot(dry) =>
      if !Accepts(s.file) then s' == s && v == Refused
      else s'.file == s.file && s'.log == s.log && v == Done && if dry then s'.db == s.db else InSync(s'.db, s.file)
  }

  /** What holds in every reachable state. */
  ghost predicate Legal(s: Machine) {
    s.log != [] && Wired(s.file) && Lean(s.file) && forall i :: 0 <= i < |s.log| ==> Sound(s.log[i])
  }

  // ---- The program ----

  class Program {
    var file: Config
    var log: seq<Config>
    const client: Client

    ghost function State(): Machine
      reads this, client
    {
      Machine(file, log, client.rows)
    }

    ghost predicate Valid()
      reads this, client
    {
      client.Valid() && Legal(State())
    }

    /** init: the default configuration is committed, loaded, validated and booted. */
    constructor ()
      ensures Valid() && fresh(client) && file == DefaultConfig() && log == [DefaultConfig()] && InSync(client.rows, file)
    {
      var d := DefaultConfiguration();
      file, log := d, [d];
      client := new Client();
      new;
      DefaultIsSound();
      var refused, filled := ValidateFinal(file);
      FilledIsTheSame(file);
      var r := RebootSystem(client, filled);
      hide *;
      SameRows(client.rows, filled, file);
      LegalAtFirst(State());
    }

    /** An editing command. */
    method RunCommand(cmd: Command) returns (v: Verdict)
      requires Valid()
      modifies this`file
      ensures Valid() && StepRel(old(State()), Edit(cmd), State(), v)
    {
      hide Execute, Wired, Sound, Lean, Saved, Client.Valid;
      LeanIsSaved(file);
      var shell := new Shell(file);
      var r := shell.Run(cmd);
      if r == None {
        CommandKeepsWiring(file, cmd);
        CommandKeepsLean(file, cmd);
        file := shell.file;
      }
      v := if r == None then Done else Refused;
    }

    /** rebootSystem on the validated configuration in memory. */
    method BootFilled(filled: Config, ghost c: Config)
      requires client.Valid() && Sound(c) && filled == FilledConfig(c)
      modifies client
      ensures client.Valid() && InSync(client.rows, c)
    {
      FilledIsTheSame(c);
      var r := RebootSystem(client, filled);
      hide *;
      SameRows(client.rows, filled, c);
    }

    /** commit, of the configuration in the file. */
    method CommitFile(reboot: bool, dry: bool) returns (v: Verdict)
      requires Valid()
      modifies this`log, client
      ensures Valid()
      ensures if Accepts(file) then Committed(old(State()), file, reboot, dry, State(), v) else State() == old(State()) && v == Refused
    {
      hide Wired, Accepts, Lean, Client.Valid;
      var refused, filled := ValidateFinal(file);
      if refused.Some? {
        return Refused;
      }
      ghost var before := State();
      log := [file] + log;
      if dry {
        return Done;
      }
      var t, s := log[0], log[1];
      if reboot {
        BootFilled(filled, t);
        return Done;
      }
      v := Apply(filled, s, t);
    }

    /** The end of commit: the difference of the two newest commits is handled. */
    method Apply(filled: Config, older: Config, newer: Config) returns (v: Verdict)
      requires client.Valid() && Sound(older) && Sound(newer) && filled == FilledConfig(newer)
      modifies client
      ensures client.Valid() && DiffRan(old(client.rows), older, newer, client.rows, v)
    {
      hide Sound, Client.Valid, IsDiff, RanAs, HasWork;
      var d := ComputeDiff(older, newer);
      PlainNames(older, newer, d);
      ghost var before := client.rows;
      var reboot, error := HandleDiff(client, newer, older, d);
      ghost var mid := client.rows;
      ghost var opts, intfs :| RanAs(before, newer, older, d, opts, intfs, mid, reboot, error);
      if reboot {
        BootFilled(filled, newer);
        v := Done;
      } else {
        v := if error.None? then Done else Failed;
      }
    }

    /** rollback: the file becomes an earlier commit, and is committed. */
    method RollBack(number: int, reboot: bool, dry: bool) returns (v: Verdict)
      requires Valid()
      modifies this`file, this`log, client
      ensures Valid() && StepRel(old(State()), Rollback(number, reboot, dry), State(), v)
    {
      hide Wired, Accepts, Lean, Client.Valid, DiffRan, InSync;
      if 2 + number <= 0 {
        return Refused;
      }
      for i := 0 to 2 + number
        invariant i <= |log| && Valid() && State() == old(State())
      {
        if i == |log| {
          return Refused;
        }
      }
      assert Sound(log[1 + number]);
      SoundIsLean(log[1 + number]);
      file := log[1 + number];
      v := CommitFile(reboot, dry);
    }

    /** The reboot command: whatever the file holds is booted, committed or not. */
    method RebootNow(dry: bool) returns (v: Verdict)
      requires Valid()
      modifies client
      ensures Valid() && StepRel(old(State()), Reboot(dry), State(), v)
    {
      hide Wired, Accepts, Lean, Client.Valid;
      var refused, filled := ValidateFinal(file);
      if refused.Some? {
        return Refused;
      }
      if !dry {
        BootFilled(filled, file);
      }
      v := Done;
    }
  }

  lemma {:induction false} PlainNames(a: Config, b: Config, d: Diff)
    requires Sound(a) && Sound(b) && IsDiff(a, b, d)
    ensures forall k :: HasWork(d, Interfaces, k) ==> ',' !in k
  {
    hide Sound, IsDiff, HasWork;
    SoundParts(a);
    SoundParts(b);
    forall k | HasWork(d, Interfaces, k) ensures ',' !in k {
      KnownName(a, b, d, k);
    }
  }

  lemma {:induction false} SameRows(db: Db, c: Config, d: Config)
    requires InSync(db, c) && forall key :: RebuildAt(c, key) == RebuildAt(d, key)
    ensures InSync(db, d)
  {
    hide Lookup, RebuildAt;
  }

  lemma {:induction false} LegalAtFirst(s: Machine)
    requires Sound(s.file) && s.log == [s.file]
    ensures Legal(s)
  {
    SoundIsLean(s.file);
    hide Lean, Wired, Accepts;
  }

  /** Complete connections have a leaf in every container. */
  lemma {:induction false} SoundIsLean(c: Config)
    requires Sound(c)
    ensures Lean(c)
  {
    hide Wired, IdsUnique, ModesAllowed, ModulesAccepted;
    forall k | k in c.interfaces ensures Trimmed(c.interfaces[k]) == c.interfaces[k] {
      if c.interfaces[k].connection.Some? {
        assert Complete(c.interfaces[k].connection.value);
      }
    }
  }

  lemma {:induction false} DefaultIsSound()
    ensures Sound(DefaultConfig())
  {
    hide PortNames, EthernetNames, ModuleNames, Wired, Occupancy;
    var c := DefaultConfig();
    DefaultIsWired();
    forall k | k in c.modules ensures ModuleAccepted(c, k, c.modules[k]) {
      NothingLoaded(c, k, "A");
      NothingLoaded(c, k, "B");
      AcceptedModule(c, k, c.modules[k]);
    }
  }

  lemma {:induction false} NothingLoaded(c: Config, name: string, ch: string)
    requires forall k :: k in c.interfaces ==> c.interfaces[k].connection.None?
    ensures SpeedsKnown(c, name, ch) && Load(c, name, ch) == 0
  {
    SumOfZero(c.interfaces.Keys, LoadOf(c.interfaces, name, ch));
  }
}
