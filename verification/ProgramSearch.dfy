/** `src/cmd/program.rs`: finding the program on `PATH` before the OS does, and the environment
    the child is given. */
module ProgramSearch {
  import opened Types
  import opened CmdTree

  // ---- The search ----

  datatype Found = Nothing | Runnable | Unsure

  predicate Absolute(dir: string) { dir != "" && dir[0] == '/' }

  /** `Path::join` with a relative name. */
  function Join(dir: string, program: string): string {
    if dir == "" then program
    else if dir[|dir| - 1] == '/' then dir + program
    else dir + "/" + program
  }

  /** `path` is the file `program` in the directory `dir`: what comes before the name is `dir` itself
      if that ends in a slash, and otherwise `dir` and one slash. */
  predicate Names(path: string, dir: string, program: string) {
    var n := |path| - |program|;
    && n > 0 && path[n..] == program && path[n - 1] == '/'
    && if dir != "" && dir[|dir| - 1] == '/' then path[..n] == dir else path[..n - 1] == dir
  }

  /** The file an entry of `PATH` stands for; the empty entry is the working directory. */
  function Candidate(dirs: seq<string>, program: string, i: nat): (path: string)
    requires i < |dirs|
    ensures if dirs[i] == "" then path == program else Names(path, dirs[i], program)
  {
    var dir := dirs[i];
    var slashed := if dir == "" || dir[|dir| - 1] == '/' then dir else dir + "/";
    slashed + program
  }

  lemma NamesOneFile(path: string, other: string, dir: string, program: string)
    requires Names(path, dir, program) && Names(other, dir, program)
    ensures path == other
  {
    var n, m := |path| - |program|, |other| - |program|;
    assert path == path[..n - 1] + ['/'] + program && other == other[..m - 1] + ['/'] + program;
    assert path[..n] == path[..n - 1] + ['/'] && other[..m] == other[..m - 1] + ['/'];
  }

  /** What the OS's own search does at an entry whose outcome cannot be foreseen. */
  datatype Choice = RunsIt | PassesOver | Stops

  /** The entry settles nothing here: it is relative or empty, or what it holds is unsure. */
  predicate Undecided(dirs: seq<string>, program: string, probe: string -> Found, i: nat)
    requires i < |dirs|
  {
    !Absolute(dirs[i]) || probe(Candidate(dirs, program, i)) == Unsure
  }

  /** The path the OS runs, searching from entry `i` (section 8.3 of the Base Definitions): the
      first entry that holds the program, where `os` settles the undecided entries. */
  function OsSearch(dirs: seq<string>, program: string, probe: string -> Found, os: seq<Choice>, i: nat): Option<string>
    requires |os| == |dirs| && i <= |dirs|
    decreases |dirs| - i
  {
    if i == |dirs| then None
    else
      var candidate := Candidate(dirs, program, i);
      if Undecided(dirs, program, probe, i) then
        match os[i]
        case RunsIt => Some(candidate)
        case PassesOver => OsSearch(dirs, program, probe, os, i + 1)
        case Stops => None
      else if probe(candidate) == Runnable then Some(candidate)
      else OsSearch(dirs, program, probe, os, i + 1)
  }

  /** Every entry before `i` is absolute, and its file is known not to be runnable. */
  ghost predicate Passed(dirs: seq<string>, program: string, probe: string -> Found, i: nat)
    requires i <= |dirs|
  {
    forall j :: 0 <= j < i ==>
      dirs[j] != "" && dirs[j][0] == '/' && forall file :: Names(file, dirs[j], program) ==> probe(file) == Nothing
  }

  /** Entry `i` answers the search with `path`: it is absolute, that file of it is runnable, and every
      entry before it was passed. */
  ghost predicate Answers(dirs: seq<string>, program: string, probe: string -> Found, i: nat, path: string) {
    && i < |dirs| && Passed(dirs, program, probe, i)
    && dirs[i] != "" && dirs[i][0] == '/' && Names(path, dirs[i], program) && probe(path) == Runnable
  }

  lemma {:induction false} FirstAnswers(dirs: seq<string>, program: string, probe: string -> Found, i: nat,
                                        path: string)
    requires i <= |dirs| && Passed(dirs, program, probe, i)
    ensures FirstFrom(dirs, program, probe, i) == Some(path) <==>
            exists k :: i <= k && Answers(dirs, program, probe, k, path)
    decreases |dirs| - i
  {
    if i < |dirs| {
      var file := Candidate(dirs, program, i);
      if dirs[i] != "" {
        forall other | Names(other, dirs[i], program) ensures other == file {
          NamesOneFile(other, file, dirs[i], program);
        }
      }
      if Undecided(dirs, program, probe, i) || probe(file) == Runnable {
        assert forall k :: i < k <= |dirs| ==> !Passed(dirs, program, probe, k);
        assert probe(file) == Runnable && Absolute(dirs[i]) ==> Answers(dirs, program, probe, i, file);
      } else {
        FirstAnswers(dirs, program, probe, i + 1, path);
        assert !Answers(dirs, program, probe, i, path);
      }
    }
  }

  lemma JoinIsCandidate(dirs: seq<string>, program: string, i: nat)
    requires i < |dirs|
    ensures Join(dirs[i], program) == Candidate(dirs, program, i)
  {
    var dir := dirs[i];
    assert dir + "/" + program == (dir + "/") + program;
  }

  method FirstRunnable(dirs: seq<string>, program: string, probe: string -> Found) returns (r: Option<string>)
    ensures r == FirstFrom(dirs, program, probe, 0)
    ensures forall path :: r == Some(path) <==> exists i :: Answers(dirs, program, probe, i, path)
  {
    hide Answers;
    forall path
      ensures FirstFrom(dirs, program, probe, 0) == Some(path) <==> exists i :: Answers(dirs, program, probe, i, path)
    {
      FirstAnswers(dirs, program, probe, 0, path);
    }
    for i := 0 to |dirs|
      invariant FirstFrom(dirs, program, probe, i) == FirstFrom(dirs, program, probe, 0)
    {
      if !Absolute(dirs[i]) { return None; }
      JoinIsCandidate(dirs, program, i);
      var candidate := Join(dirs[i], program);
      match probe(candidate)
      case Nothing =>
      case Runnable => return Some(candidate);
      case Unsure => return None;
    }
    r := None;
  }

  function FirstFrom(dirs: seq<string>, program: string, probe: string -> Found, i: nat): Option<string>
    requires i <= |dirs|
    decreases |dirs| - i
  {
    if i == |dirs| || Undecided(dirs, program, probe, i) then None
    else if probe(Candidate(dirs, program, i)) == Runnable then Some(Candidate(dirs, program, i))
    else FirstFrom(dirs, program, probe, i + 1)
  }

  /** The answer is what the OS runs, however it settles what is undecided. */
  lemma {:induction false} AnswerIsCertain(
    dirs: seq<string>, program: string, probe: string -> Found, os: seq<Choice>, i: nat)
    requires |os| == |dirs| && i <= |dirs| && FirstFrom(dirs, program, probe, i).Some?
    ensures OsSearch(dirs, program, probe, os, i) == FirstFrom(dirs, program, probe, i)
    decreases |dirs| - i
  {
    if probe(Candidate(dirs, program, i)) != Runnable { AnswerIsCertain(dirs, program, probe, os, i + 1); }
  }

  function Everywhere(dirs: seq<string>, c: Choice): (os: seq<Choice>)
    ensures |os| == |dirs| && forall i :: 0 <= i < |os| ==> os[i] == c
  {
    seq(|dirs|, i => c)
  }

  predicate Bare(program: string) { program != "" && '/' !in program }

  /** An OS that passes over all that is undecided reaches the first entry known to be runnable. */
  lemma {:induction false} PassingFindsRunnable(
    dirs: seq<string>, program: string, probe: string -> Found, i: nat, path: string)
    requires i <= |dirs| && OsSearch(dirs, program, probe, Everywhere(dirs, PassesOver), i) == Some(path)
    ensures exists j :: i <= j < |dirs| && Absolute(dirs[j]) && path == Candidate(dirs, program, j) &&
                        probe(path) == Runnable
    decreases |dirs| - i
  {
    if Undecided(dirs, program, probe, i) || probe(Candidate(dirs, program, i)) != Runnable {
      PassingFindsRunnable(dirs, program, probe, i + 1, path);
    }
  }

  /** An OS that never stops early, but may run or pass over what is undecided, does not run one
      and the same file both ways unless that file is the answer. */
  lemma {:induction false} NoAnswerRunsOrPasses(
    dirs: seq<string>, program: string, probe: string -> Found, i: nat, path: string)
    requires Bare(program) && i <= |dirs| && FirstFrom(dirs, program, probe, i).None?
    ensures OsSearch(dirs, program, probe, Everywhere(dirs, RunsIt), i) != Some(path)
            || OsSearch(dirs, program, probe, Everywhere(dirs, PassesOver), i) != Some(path)
    decreases |dirs| - i
  {
    if i < |dirs| {
      if !Undecided(dirs, program, probe, i) {
        NoAnswerRunsOrPasses(dirs, program, probe, i + 1, path);
      } else if OsSearch(dirs, program, probe, Everywhere(dirs, PassesOver), i) == Some(path) {
        PassingFindsRunnable(dirs, program, probe, i, path);
        var j :| i <= j < |dirs| && Absolute(dirs[j]) && path == Candidate(dirs, program, j) && probe(path) == Runnable;
        assert path[0] == dirs[j][0];
        assert dirs[i] != "" ==> Candidate(dirs, program, i)[0] == dirs[i][0];
      }
    }
  }

  ghost predicate OsAlwaysRuns(dirs: seq<string>, program: string, probe: string -> Found, path: string) {
    forall os: seq<Choice> :: |os| == |dirs| ==> OsSearch(dirs, program, probe, os, 0) == Some(path)
  }

  /** The search answers with a path exactly when the OS is certain to run that path, and leaves
      every other search to the OS. It is enough that the OS runs it both when it runs, and when it
      passes over, everything undecided. */
  lemma ResolvesIffCertain(dirs: seq<string>, program: string, probe: string -> Found, path: string)
    requires Bare(program)
    ensures FirstFrom(dirs, program, probe, 0) == Some(path) <==> OsAlwaysRuns(dirs, program, probe, path)
    ensures FirstFrom(dirs, program, probe, 0) == Some(path) <==>
              && OsSearch(dirs, program, probe, Everywhere(dirs, RunsIt), 0) == Some(path)
              && OsSearch(dirs, program, probe, Everywhere(dirs, PassesOver), 0) == Some(path)
  {
    if FirstFrom(dirs, program, probe, 0).Some? {
      forall os: seq<Choice> | |os| == |dirs|
        ensures OsSearch(dirs, program, probe, os, 0) == FirstFrom(dirs, program, probe, 0)
      {
        AnswerIsCertain(dirs, program, probe, os, 0);
      }
    } else {
      NoAnswerRunsOrPasses(dirs, program, probe, 0, path);
    }
    assert |Everywhere(dirs, RunsIt)| == |dirs|;
  }

  /** `resolve`: names the OS would not search for are left alone. */
  method Resolve(program: string, dirs: seq<string>, probe: string -> Found) returns (r: Option<string>)
    ensures r.Some? ==> Bare(program) && '\0' !in program
    ensures forall path :: Bare(program) && '\0' !in program ==>
              (r == Some(path) <==> OsAlwaysRuns(dirs, program, probe, path))
    ensures forall path :: Bare(program) && '\0' !in program ==>
              (r == Some(path) <==> exists i :: Answers(dirs, program, probe, i, path))
  {
    hide Answers, OsAlwaysRuns;
    if program == "" || '/' in program || '\0' in program { return None; }
    r := FirstRunnable(dirs, program, probe);
    forall path ensures r == Some(path) <==> OsAlwaysRuns(dirs, program, probe, path) {
      ResolvesIffCertain(dirs, program, probe, path);
    }
  }

  // ---- The environment ----

  type Env = map<string, string>

  /** std's `Command`: its arguments, its working directory, and the child's environment, which is
      whether the parent's is dropped and the changes made since, where `None` removes. */
  class Command {
    var args: seq<string>
    var cwd: Option<string>
    var clear: bool
    var changes: map<string, Option<string>>

    constructor ()
      ensures args == [] && cwd.None? && !clear && changes == map[]
    {
      args, cwd, clear, changes := [], None, false, map[];
    }

    method Args(more: seq<string>)
      modifies this`args
      ensures args == old(args) + more
    {
      args := args + more;
    }

    method CurrentDir(dir: string)
      modifies this`cwd
      ensures cwd == Some(dir)
    {
      cwd := Some(dir);
    }

    method EnvClear()
      modifies this`clear, this`changes
      ensures clear && changes == map[]
    {
      clear, changes := true, map[];
    }

    method EnvRemove(key: string)
      modifies this`changes
      ensures changes == if clear then old(changes) - {key} else old(changes)[key := None]
    {
      changes := if clear then changes - {key} else changes[key := None];
    }

    method EnvSet(key: string, value: string)
      modifies this`changes
      ensures changes == old(changes)[key := Some(value)]
    {
      changes := changes[key := Some(value)];
    }

    /** The value the child sees for `key`. */
    function Sees(parent: Env, key: string): Option<string>
      reads this
    {
      if key in changes then changes[key]
      else if !clear && key in parent then Some(parent[key])
      else None
    }
  }

  /** The last value a stage sets for `key`. */
  function LastSet(envs: seq<(string, string)>, key: string): Option<string> {
    if envs == [] then None
    else
      var n := |envs| - 1;
      if envs[n].0 == key then Some(envs[n].1) else LastSet(envs[..n], key)
  }

  /** What a stage's settings mean for its child: a value it sets wins over a removal, whatever
      order the builder was called in. */
  function ChildSees(s: SingleCmd, parent: Env, key: string): Option<string> {
    if LastSet(s.envs, key).Some? then LastSet(s.envs, key)
    else if s.envClear || key in s.envRemove || key !in parent then None
    else Some(parent[key])
  }

  /** What the last of a stage's settings for `key` says: a value set, whatever order the builder was
      called in; or else a removal; or else what the parent has. */
  ghost predicate Seen(s: SingleCmd, parent: Env, key: string, value: Option<string>) {
    || (exists i :: 0 <= i < |s.envs| && s.envs[i].0 == key && value == Some(s.envs[i].1)
          && forall j :: i < j < |s.envs| ==> s.envs[j].0 != key)
    || ((forall i :: 0 <= i < |s.envs| ==> s.envs[i].0 != key)
        && value == if !s.envClear && key !in s.envRemove && key in parent then Some(parent[key]) else None)
  }

  lemma {:induction false} LastSetIsLast(envs: seq<(string, string)>, key: string)
    ensures LastSet(envs, key).None? ==> forall i :: 0 <= i < |envs| ==> envs[i].0 != key
    ensures LastSet(envs, key).Some? ==>
              exists i :: 0 <= i < |envs| && envs[i].0 == key && LastSet(envs, key) == Some(envs[i].1)
                && forall j :: i < j < |envs| ==> envs[j].0 != key
    decreases |envs|
  {
    if envs != [] && envs[|envs| - 1].0 != key { LastSetIsLast(envs[..|envs| - 1], key); }
  }

  lemma ChildSeesIs(s: SingleCmd, parent: Env, key: string)
    ensures Seen(s, parent, key, ChildSees(s, parent, key))
  {
    LastSetIsLast(s.envs, key);
  }

  method ApplyTo(s: SingleCmd, cmd: Command)
    requires cmd.args == [] && cmd.cwd.None? && !cmd.clear && cmd.changes == map[]
    modifies cmd
    ensures cmd.args == s.args && cmd.cwd == s.cwd
    ensures forall parent: Env, key :: Seen(s, parent, key, cmd.Sees(parent, key))
    ensures forall parent: Env, key :: cmd.Sees(parent, key) == ChildSees(s, parent, key)
  {
    hide Seen;
    cmd.Args(s.args);
    if s.cwd.Some? { cmd.CurrentDir(s.cwd.value); }
    if s.envClear { cmd.EnvClear(); }
    for i := 0 to |s.envRemove|
      invariant cmd.args == s.args && cmd.cwd == s.cwd && cmd.clear == s.envClear
      invariant forall k :: k in cmd.changes <==> !s.envClear && k in s.envRemove[..i]
      invariant forall k :: k in cmd.changes ==> cmd.changes[k].None?
    {
      cmd.EnvRemove(s.envRemove[i]);
      assert s.envRemove[..i + 1] == s.envRemove[..i] + [s.envRemove[i]];
    }
    assert s.envRemove[..|s.envRemove|] == s.envRemove;
    for i := 0 to |s.envs|
      invariant cmd.args == s.args && cmd.cwd == s.cwd && cmd.clear == s.envClear
      invariant forall k :: LastSet(s.envs[..i], k).Some? ==>
        k in cmd.changes && cmd.changes[k] == LastSet(s.envs[..i], k)
      invariant forall k :: LastSet(s.envs[..i], k).None? ==>
        && (k in cmd.changes <==> !s.envClear && k in s.envRemove) && (k in cmd.changes ==> cmd.changes[k].None?)
    {
      assert s.envs[..i + 1][..i] == s.envs[..i];
      cmd.EnvSet(s.envs[i].0, s.envs[i].1);
    }
    assert s.envs[..|s.envs|] == s.envs;
    forall parent: Env, key
      ensures Seen(s, parent, key, cmd.Sees(parent, key)) && cmd.Sees(parent, key) == ChildSees(s, parent, key)
    {
      ChildSeesIs(s, parent, key);
    }
  }

  const PATH: string := "PATH"

  predicate InheritsPath(s: SingleCmd) {
    && !s.envClear && PATH !in s.envRemove
    && forall i :: 0 <= i < |s.envs| ==> s.envs[i].0 != PATH
  }

  ghost predicate ChildPathIsParents(s: SingleCmd) {
    forall parent: Env :: ChildSees(s, parent, PATH) == if PATH in parent then Some(parent[PATH]) else None
  }

  /** The check made before searching with this process's `PATH` holds exactly when the child is
      sure to be given that same `PATH`. */
  lemma InheritsPathIff(s: SingleCmd)
    ensures InheritsPath(s) <==> ChildPathIsParents(s)
  {
    LastSetIs(s.envs);
    if InheritsPath(s) {
      assert LastSet(s.envs, PATH).None?;
    } else {
      var parent: Env := map[PATH := ""];
      var other: Env := map[PATH := "/"];
      assert ChildSees(s, parent, PATH) != Some("") || ChildSees(s, other, PATH) != Some("/");
    }
  }

  lemma {:induction false} LastSetIs(envs: seq<(string, string)>)
    ensures LastSet(envs, PATH).Some? <==> exists i :: 0 <= i < |envs| && envs[i].0 == PATH
    decreases |envs|
  {
    if envs != [] { LastSetIs(envs[..|envs| - 1]); }
  }
}
