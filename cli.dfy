/**
 * The `run`, `build` and `halt` commands of the builder's command line: which
 * engine calls they issue, in which order, and when they stop early.  The
 * result is the exit status (0 when the command ends normally, 1 after
 * `sys.exit(1)`) or the exception that escapes.  Argument parsing is not
 * modelled: the parsed arguments are the inputs.
 */
module Cli {
  import opened Wrappers
  import opened Text
  import opened JsonValues
  import opened Docker
  import opened Containers

  /** A `%s` of a listed field: a string as it is, any other value as `str` renders it. */
  function Show(str: Json -> string, v: Json): string {
    if v.JStr? then v.s else str(v)
  }

  /** The `"repository:tag"` names of the listed images, in order. */
  function Tags(str: Json -> string, images: seq<Image>): (tags: seq<string>)
    ensures |tags| == |images|
    ensures forall i :: 0 <= i < |images| ==> tags[i] == Show(str, images[i].repository) + ":" + Show(str, images[i].tag)
  {
    seq(|images|, i requires 0 <= i < |images| => Show(str, images[i].repository) + ":" + Show(str, images[i].tag))
  }

  /** The ids as separate arguments (`*ids`). */
  function IdArgs(ids: seq<Json>): (args: seq<Arg>)
    ensures |args| == |ids| && forall i :: 0 <= i < |ids| ==> args[i] == Id(ids[i])
  {
    seq(|ids|, i requires 0 <= i < |ids| => Id(ids[i]))
  }

  function Strs(ss: seq<string>): (vs: seq<Json>)
    ensures |vs| == |ss| && forall i :: 0 <= i < |ss| ==> vs[i] == JStr(ss[i])
  {
    seq(|ss|, i requires 0 <= i < |ss| => JStr(ss[i]))
  }

  /** Whether the named image is listed: the images listing, then an exact match on `"repository:tag"`. */
  function ImageCheckSpec(json: string -> Option<Json>, str: Json -> string, daemon: Daemon, h: seq<Call>,
                          image: string): Effect<Result<bool, Exception>> {
    var l := ImagesListSpec(json, daemon, h);
    match l.value
    case Err(e) => Effect(Err(e), l.trace)
    case Ok(images) => Effect(Ok(image in Tags(str, images)), l.trace)
  }

  /** `run`: exit 1 unless the image is listed; otherwise `run_base_container`. */
  function RunCommandSpec(json: string -> Option<Json>, str: Json -> string, daemon: Daemon, h: seq<Call>,
                          image: string, container: string, rerun: bool): Effect<Result<nat, Exception>> {
    var c := ImageCheckSpec(json, str, daemon, h, image);
    match c.value
    case Err(e) => Effect(Err(e), c.trace)
    case Ok(listed) =>
      if !listed then Effect(Ok(1), c.trace)
      else
        var b := BaseContainerSpec(json, daemon, c.trace, image, container, rerun);
        Effect(if b.value.Err? then Err(b.value.error) else Ok(0), b.trace)
  }

  /**
   * The build script: one `imp.load_source` cannot load (the exception it
   * raises), one without a `run` function, or a `run(ctx)` that calls
   * `ctx.cmd(*step)` for each of its steps.
   */
  datatype BuildScript = Unloadable(error: Exception) | NoRun | Steps(steps: seq<seq<string>>)

  datatype BuildArgs = BuildArgs(source: string, container: string, target: string, script: BuildScript,
                                 rerun: bool, removeStaging: bool)

  /** The steps of a script's `run`, in order, until one raises. */
  function StepsSpec(daemon: Daemon, h: seq<Call>, container: string, shlex: string -> Option<seq<string>>,
                     steps: seq<seq<string>>): Effect<Result<(), Exception>>
    decreases |steps|
  {
    if steps == [] then Effect(Ok(()), h)
    else
      var p := StepsSpec(daemon, h, container, shlex, steps[..|steps| - 1]);
      if p.value.Err? then p
      else
        var c := CmdSpec(daemon, p.trace, container, shlex, steps[|steps| - 1]);
        Effect(if c.value.Err? then Err(c.value.error) else Ok(()), c.trace)
  }

  /** `except AttributeError`: that exception is caught (and logged), any other escapes. */
  function Caught(e: Exception, t: seq<Call>): Effect<Result<bool, Exception>> {
    if e == AttributeError then Effect(Ok(false), t) else Effect(Err(e), t)
  }

  /**
   * The `try` block of `build`: `build_script.run` is looked up first (a script
   * without one raises AttributeError before the handle is made), then the
   * handle, the script's steps and the commit.  True when the commit was reached.
   */
  function TrySpec(json: string -> Option<Json>, shlex: string -> Option<seq<string>>, daemon: Daemon, h: seq<Call>,
                   container: string, target: string, run: Option<seq<seq<string>>>): Effect<Result<bool, Exception>> {
    if run.None? then Effect(Ok(false), h)
    else
      var o := OpenSpec(json, daemon, h, container);
      if o.value.Err? then Caught(o.value.error, o.trace)
      else
        var s := StepsSpec(daemon, o.trace, container, shlex, run.value);
        if s.value.Err? then Caught(s.value.error, s.trace)
        else Effect(Ok(true), CommitSpec(daemon, s.trace, container, target).trace)
  }

  /** `--remove-staging`: the containers named exactly like the staging one are stopped, then removed. */
  function CleanupSpec(json: string -> Option<Json>, daemon: Daemon, h: seq<Call>, container: string): Effect<Result<nat, Exception>> {
    var l := ContainersListSpec(json, daemon, h);
    match l.value
    case Err(e) => Effect(Err(e), l.trace)
    case Ok(cs) =>
      var ids := IdArgs(Ids(Named(cs, container)));
      Effect(Ok(0), RemoveSpec(daemon, StopSpec(daemon, l.trace, ids).trace, ids).trace)
  }

  function RunOf(script: BuildScript): Option<seq<seq<string>>> {
    if script.Steps? then Some(script.steps) else None
  }

  /**
   * `build`: the image check, the base container, the script, the `try` block,
   * and the cleanup when asked for, whatever the `try` block did.
   */
  function BuildSpec(json: string -> Option<Json>, shlex: string -> Option<seq<string>>, str: Json -> string,
                     daemon: Daemon, h: seq<Call>, args: BuildArgs): Effect<Result<nat, Exception>> {
    var c := ImageCheckSpec(json, str, daemon, h, args.source);
    match c.value
    case Err(e) => Effect(Err(e), c.trace)
    case Ok(listed) =>
      if !listed then Effect(Ok(1), c.trace)
      else
        var b := BaseContainerSpec(json, daemon, c.trace, args.source, args.container, args.rerun);
        if b.value.Err? then Effect(Err(b.value.error), b.trace)
        else if args.script.Unloadable? then Effect(Err(args.script.error), b.trace)
        else
          var t := TrySpec(json, shlex, daemon, b.trace, args.container, args.target, RunOf(args.script));
          if t.value.Err? then Effect(Err(t.value.error), t.trace)
          else if args.removeStaging then CleanupSpec(json, daemon, t.trace, args.container)
          else Effect(Ok(0), t.trace)
  }

  /** The final listing of `halt` (for the log); only its exception matters. */
  function FinalListingSpec(json: string -> Option<Json>, daemon: Daemon, h: seq<Call>): Effect<Result<nat, Exception>> {
    var l := ContainersListSpec(json, daemon, h);
    Effect(if l.value.Err? then Err(l.value.error) else Ok(0), l.trace)
  }

  /**
   * `halt`: exit 1 without ids and without `--all`; the given ids (one list
   * argument) stopped and removed; with `--all`, every listed id stopped and
   * removed; then the final listing.
   */
  function HaltSpec(json: string -> Option<Json>, daemon: Daemon, h: seq<Call>, ids: seq<string>, all: bool): Effect<Result<nat, Exception>> {
    if ids == [] && !all then Effect(Ok(1), h)
    else
      var given := [IdList(Strs(ids))];
      var h1 := if ids != [] then RemoveSpec(daemon, StopSpec(daemon, h, given).trace, given).trace else h;
      if !all then FinalListingSpec(json, daemon, h1)
      else
        var l := ContainersListSpec(json, daemon, h1);
        match l.value
        case Err(e) => Effect(Err(e), l.trace)
        case Ok(cs) =>
          var each := IdArgs(Ids(cs));
          FinalListingSpec(json, daemon, RemoveSpec(daemon, StopSpec(daemon, l.trace, each).trace, each).trace)
  }

  // ---------------------------------------------------------------- the commands

  method ImageListed(cli: DockerCli, str: Json -> string, image: string) returns (r: Result<bool, Exception>)
    modifies cli.engine
    ensures Effect(r, cli.engine.trace) == ImageCheckSpec(cli.json, str, cli.engine.daemon, old(cli.engine.trace), image)
  {
    var images := cli.ImagesList();
    if images.Err? {
      return Err(images.error);
    }
    r := Ok(image in Tags(str, images.value));
  }

  method RunCommand(cli: DockerCli, str: Json -> string, image: string, container: string, rerun: bool)
    returns (r: Result<nat, Exception>)
    modifies cli.engine
    ensures Effect(r, cli.engine.trace) == RunCommandSpec(cli.json, str, cli.engine.daemon, old(cli.engine.trace), image, container, rerun)
  {
    var listed := ImageListed(cli, str, image);
    if listed.Err? {
      return Err(listed.error);
    }
    if !listed.value {
      return Ok(1);
    }
    var base := cli.RunBaseContainer(image, container, rerun);
    if base.Err? {
      return Err(base.error);
    }
    r := Ok(0);
  }

  /** A script's `run(ctx)`: `ctx.cmd(*step)` for each step. */
  method RunSteps(ctx: ContainerContext, shlex: string -> Option<seq<string>>, steps: seq<seq<string>>)
    returns (r: Result<(), Exception>)
    modifies ctx.cli.engine
    ensures Effect(r, ctx.cli.engine.trace) == StepsSpec(ctx.cli.engine.daemon, old(ctx.cli.engine.trace), ctx.containerName, shlex, steps)
  {
    ghost var h := ctx.cli.engine.trace;
    for i := 0 to |steps|
      invariant StepsSpec(ctx.cli.engine.daemon, h, ctx.containerName, shlex, steps[..i]) == Effect(Ok(()), ctx.cli.engine.trace)
    {
      assert steps[..i + 1][..i] == steps[..i];
      var out := ctx.Cmd(shlex, steps[i]);
      if out.Err? {
        StepsStop(ctx.cli.engine.daemon, h, ctx.containerName, shlex, steps, i + 1);
        assert steps[..|steps|] == steps;
        return Err(out.error);
      }
    }
    assert steps[..|steps|] == steps;
    r := Ok(());
  }

  method TryBlock(cli: DockerCli, shlex: string -> Option<seq<string>>, container: string, target: string,
                  run: Option<seq<seq<string>>>) returns (r: Result<bool, Exception>)
    modifies cli.engine
    ensures Effect(r, cli.engine.trace) == TrySpec(cli.json, shlex, cli.engine.daemon, old(cli.engine.trace), container, target, run)
  {
    if run.None? {
      return Ok(false);
    }
    var ctx := Open(cli, container);
    if ctx.Err? {
      return if ctx.error == AttributeError then Ok(false) else Err(ctx.error);
    }
    var done := RunSteps(ctx.value, shlex, run.value);
    if done.Err? {
      return if done.error == AttributeError then Ok(false) else Err(done.error);
    }
    var _ := cli.Commit(container, target);
    r := Ok(true);
  }

  method RemoveStaging(cli: DockerCli, container: string) returns (r: Result<nat, Exception>)
    modifies cli.engine
    ensures Effect(r, cli.engine.trace) == CleanupSpec(cli.json, cli.engine.daemon, old(cli.engine.trace), container)
  {
    var containers := cli.ContainersList();
    if containers.Err? {
      return Err(containers.error);
    }
    var staging := IdArgs(Ids(Named(containers.value, container)));
    var _ := cli.StopContainers(staging);
    var _ := cli.RemoveContainers(staging);
    r := Ok(0);
  }

  method Build(cli: DockerCli, shlex: string -> Option<seq<string>>, str: Json -> string, args: BuildArgs)
    returns (r: Result<nat, Exception>)
    modifies cli.engine
    ensures Effect(r, cli.engine.trace) == BuildSpec(cli.json, shlex, str, cli.engine.daemon, old(cli.engine.trace), args)
  {
    var listed := ImageListed(cli, str, args.source);
    if listed.Err? {
      return Err(listed.error);
    }
    if !listed.value {
      return Ok(1);
    }
    var base := cli.RunBaseContainer(args.source, args.container, args.rerun);
    if base.Err? {
      return Err(base.error);
    }
    if args.script.Unloadable? {
      return Err(args.script.error);
    }
    var committed := TryBlock(cli, shlex, args.container, args.target, RunOf(args.script));
    if committed.Err? {
      return Err(committed.error);
    }
    if args.removeStaging {
      r := RemoveStaging(cli, args.container);
    } else {
      r := Ok(0);
    }
  }

  method Halt(cli: DockerCli, ids: seq<string>, all: bool) returns (r: Result<nat, Exception>)
    modifies cli.engine
    ensures Effect(r, cli.engine.trace) == HaltSpec(cli.json, cli.engine.daemon, old(cli.engine.trace), ids, all)
  {
    if ids == [] && !all {
      return Ok(1);
    }
    if ids != [] {
      var _ := cli.StopContainers([IdList(Strs(ids))]);
      var _ := cli.RemoveContainers([IdList(Strs(ids))]);
    }
    if all {
      var containers := cli.ContainersList();
      if containers.Err? {
        return Err(containers.error);
      }
      var each := IdArgs(Ids(containers.value));
      var _ := cli.StopContainers(each);
      var _ := cli.RemoveContainers(each);
    }
    var remaining := cli.ContainersList();
    r := if remaining.Err? then Err(remaining.error) else Ok(0);
  }

  lemma {:induction false} StepsStop(daemon: Daemon, h: seq<Call>, container: string, shlex: string -> Option<seq<string>>,
                                     steps: seq<seq<string>>, i: nat)
    requires i <= |steps| && StepsSpec(daemon, h, container, shlex, steps[..i]).value.Err?
    ensures StepsSpec(daemon, h, container, shlex, steps) == StepsSpec(daemon, h, container, shlex, steps[..i])
    decreases |steps| - i
  {
    if i < |steps| {
      assert steps[..i + 1][..i] == steps[..i];
      StepsStop(daemon, h, container, shlex, steps, i + 1);
    } else {
      assert steps[..i] == steps;
    }
  }

  // ---------------------------------------------------------------- what the commands do

  /** t is h followed by further calls. */
  predicate Extends(h: seq<Call>, t: seq<Call>) {
    |h| <= |t| && t[..|h|] == h
  }

  lemma ExtendsTrans(a: seq<Call>, b: seq<Call>, c: seq<Call>)
    requires Extends(a, b) && Extends(b, c)
    ensures Extends(a, c)
  {
    assert c[..|a|] == c[..|b|][..|a|];
  }

  /** The calls after h in t are all `exec`s in the named container. */
  predicate OnlyExecs(h: seq<Call>, t: seq<Call>, name: string) {
    Extends(h, t) && forall j :: |h| <= j < |t| ==> t[j].Exec? && t[j].container == name
  }

  /**
   * The image check lists the images and nothing else, and passes exactly when
   * the listing does not raise and some image's `"repository:tag"` is the name.
   */
  lemma ImageCheckIff(json: string -> Option<Json>, str: Json -> string, daemon: Daemon, h: seq<Call>, image: string)
    ensures var c := ImageCheckSpec(json, str, daemon, h, image);
      var l := ImagesListSpec(json, daemon, h).value;
      c.trace == h + [Images]
      && (c.value == Ok(true) <==>
            l.Ok? && exists i :: 0 <= i < |l.value| && Show(str, l.value[i].repository) + ":" + Show(str, l.value[i].tag) == image)
  {
    var l := ImagesListSpec(json, daemon, h).value;
    if l.Ok? {
      var tags := Tags(str, l.value);
      if image in tags {
        var i :| 0 <= i < |tags| && tags[i] == image;
        assert Show(str, l.value[i].repository) + ":" + Show(str, l.value[i].tag) == image;
      }
    }
  }

  /**
   * `run` and `build` exit with status 1 exactly when the images listing does
   * not raise and the image is not listed, and then only the listing was issued.
   */
  lemma UnlistedImageExits(json: string -> Option<Json>, shlex: string -> Option<seq<string>>, str: Json -> string,
                           daemon: Daemon, h: seq<Call>, container: string, rerun: bool, args: BuildArgs)
    ensures var l := ImagesListSpec(json, daemon, h).value;
      var r := RunCommandSpec(json, str, daemon, h, args.source, container, rerun);
      (r.value == Ok(1) <==> l.Ok? && args.source !in Tags(str, l.value))
      && (r.value == Ok(1) ==> r.trace == h + [Images])
    ensures var l := ImagesListSpec(json, daemon, h).value;
      var b := BuildSpec(json, shlex, str, daemon, h, args);
      (b.value == Ok(1) <==> l.Ok? && args.source !in Tags(str, l.value))
      && (b.value == Ok(1) ==> b.trace == h + [Images])
  {
    ImageCheckIff(json, str, daemon, h, args.source);
    var c := ImageCheckSpec(json, str, daemon, h, args.source);
    if c.value == Ok(true) {
      var b := BaseContainerSpec(json, daemon, c.trace, args.source, args.container, args.rerun);
      if b.value.Ok? && !args.script.Unloadable? {
        var t := TrySpec(json, shlex, daemon, b.trace, args.container, args.target, RunOf(args.script));
        if t.value.Ok? && args.removeStaging {
          assert CleanupSpec(json, daemon, t.trace, args.container).value != Ok(1);
        }
      }
    }
  }

  /** A script's steps issue only `exec`s in the staging container. */
  lemma {:induction false} StepsExecs(daemon: Daemon, h: seq<Call>, container: string, shlex: string -> Option<seq<string>>,
                                      steps: seq<seq<string>>)
    ensures OnlyExecs(h, StepsSpec(daemon, h, container, shlex, steps).trace, container)
    decreases |steps|
  {
    if steps != [] {
      var p := StepsSpec(daemon, h, container, shlex, steps[..|steps| - 1]);
      StepsExecs(daemon, h, container, shlex, steps[..|steps| - 1]);
      if p.value.Ok? {
        var step := steps[|steps| - 1];
        var c := CmdSpec(daemon, p.trace, container, shlex, step);
        CmdCalls(daemon, p.trace, container, shlex, step);
        ExecsThenExecs(h, p.trace, c.trace, container, shlex, step);
      }
    }
  }

  lemma ExecsThenExecs(h: seq<Call>, p: seq<Call>, t: seq<Call>, container: string, shlex: string -> Option<seq<string>>,
                       step: seq<string>)
    requires OnlyExecs(h, p, container) && ExecsOf(p, t, container, shlex, step)
    ensures OnlyExecs(h, t, container)
  {
    ExtendsTrans(h, p, t);
    forall j | |h| <= j < |t|
      ensures t[j].Exec? && t[j].container == container
    {
      if j < |p| {
        assert t[j] == t[..|p|][j];
      } else {
        assert t[|p| + (j - |p|)] == Exec(container, shlex(step[j - |p|]).value);
      }
    }
  }

  /**
   * The `try` block reaches the commit exactly when the script has a `run`, the
   * handle is made and every step returns; otherwise no commit is issued and
   * the block issues only the handle's listing and the steps' `exec`s.  Only an
   * AttributeError is swallowed; a missing container's RuntimeError escapes.
   * A script without `run` fails before the handle is made: no call at all.
   */
  lemma CommitOnlyAfterRun(json: string -> Option<Json>, shlex: string -> Option<seq<string>>, daemon: Daemon, h: seq<Call>,
                           container: string, target: string, run: Option<seq<seq<string>>>)
    ensures var t := TrySpec(json, shlex, daemon, h, container, target, run);
      var o := OpenSpec(json, daemon, h, container);
      (t.value == Ok(true) <==>
         run.Some? && o.value.Ok? && StepsSpec(daemon, o.trace, container, shlex, run.value).value.Ok?)
      && Extends(h, t.trace)
      && (t.value != Ok(true) ==> forall j :: |h| <= j < |t.trace| ==> !t.trace[j].Commit?)
    ensures run.None? ==> TrySpec(json, shlex, daemon, h, container, target, run) == Effect(Ok(false), h)
    ensures run.Some? && OpenSpec(json, daemon, h, container).value == Err(RuntimeError("Container does not exist, " + container)) ==>
      TrySpec(json, shlex, daemon, h, container, target, run).value == Err(RuntimeError("Container does not exist, " + container))
  {
    if run.Some? {
      OpenIff(json, daemon, h, container);
      var o := OpenSpec(json, daemon, h, container);
      if o.value.Ok? {
        StepsExecs(daemon, o.trace, container, shlex, run.value);
        var s := StepsSpec(daemon, o.trace, container, shlex, run.value);
        ExtendsTrans(h, o.trace, s.trace);
        if s.value.Ok? {
          var c := CommitSpec(daemon, s.trace, container, target);
          assert Extends(s.trace, c.trace);
          ExtendsTrans(h, s.trace, c.trace);
        } else {
          forall j | |h| <= j < |s.trace|
            ensures !s.trace[j].Commit?
          {
            if j == |h| {
              assert s.trace[j] == s.trace[..|o.trace|][j];
            }
          }
        }
      }
    }
  }

  /** The cleanup only adds calls to the trace. */
  lemma CleanupExtends(json: string -> Option<Json>, daemon: Daemon, h: seq<Call>, container: string)
    ensures Extends(h, CleanupSpec(json, daemon, h, container).trace)
  {
  }

  /**
   * `build` runs the script after acquiring the base container whatever the
   * acquisition returned, a container kept as it was (None) included: when the
   * image is listed, the acquisition does not raise and the script has a `run`,
   * the next call is the handle's listing.
   */
  lemma ScriptRunsAfterAcquire(json: string -> Option<Json>, shlex: string -> Option<seq<string>>, str: Json -> string,
                               daemon: Daemon, h: seq<Call>, args: BuildArgs)
    requires ImageCheckSpec(json, str, daemon, h, args.source).value == Ok(true)
    requires BaseContainerSpec(json, daemon, h + [Images], args.source, args.container, args.rerun).value.Ok?
    requires args.script.Steps?
    ensures var b := BaseContainerSpec(json, daemon, h + [Images], args.source, args.container, args.rerun);
      var t := BuildSpec(json, shlex, str, daemon, h, args).trace;
      Extends(b.trace, t) && |t| > |b.trace| && t[|b.trace|] == Ps
  {
    ImageCheckIff(json, str, daemon, h, args.source);
    var b := BaseContainerSpec(json, daemon, h + [Images], args.source, args.container, args.rerun);
    var t := TrySpec(json, shlex, daemon, b.trace, args.container, args.target, RunOf(args.script));
    CommitOnlyAfterRun(json, shlex, daemon, b.trace, args.container, args.target, RunOf(args.script));
    OpenIff(json, daemon, b.trace, args.container);
    var o := OpenSpec(json, daemon, b.trace, args.container);
    if o.value.Ok? {
      StepsExecs(daemon, o.trace, args.container, shlex, args.script.steps);
      var s := StepsSpec(daemon, o.trace, args.container, shlex, args.script.steps);
      assert s.trace[|b.trace|] == s.trace[..|o.trace|][|b.trace|];
      if s.value.Ok? {
        var c := CommitSpec(daemon, s.trace, args.container, args.target);
        assert c.trace[|b.trace|] == c.trace[..|s.trace|][|b.trace|];
      }
    }
    assert t.trace[|b.trace|] == Ps;
    if t.value.Ok? && args.removeStaging {
      var u := CleanupSpec(json, daemon, t.trace, args.container);
      CleanupExtends(json, daemon, t.trace, args.container);
      ExtendsTrans(b.trace, t.trace, u.trace);
      assert u.trace[|b.trace|] == u.trace[..|t.trace|][|b.trace|];
    }
  }

  /**
   * A build script that cannot be loaded raises once the base container is
   * acquired: no handle, no commit and no cleanup.
   */
  lemma UnloadableScript(json: string -> Option<Json>, shlex: string -> Option<seq<string>>, str: Json -> string,
                         daemon: Daemon, h: seq<Call>, args: BuildArgs)
    requires ImageCheckSpec(json, str, daemon, h, args.source).value == Ok(true)
    requires BaseContainerSpec(json, daemon, h + [Images], args.source, args.container, args.rerun).value.Ok?
    requires args.script.Unloadable?
    ensures BuildSpec(json, shlex, str, daemon, h, args)
      == Effect(Err(args.script.error), BaseContainerSpec(json, daemon, h + [Images], args.source, args.container, args.rerun).trace)
  {
    ImageCheckIff(json, str, daemon, h, args.source);
  }

  lemma FlattenIds(ids: seq<Json>)
    ensures Flatten(IdArgs(ids)) == ids
    decreases |ids|
  {
    if ids != [] {
      assert IdArgs(ids)[..|ids| - 1] == IdArgs(ids[..|ids| - 1]);
      FlattenIds(ids[..|ids| - 1]);
    }
  }

  /**
   * The cleanup lists the containers, then stops and removes the ids of
   * exactly those named like the staging container; none named so, no call.
   */
  lemma CleanupNamed(json: string -> Option<Json>, daemon: Daemon, h: seq<Call>, container: string)
    requires ContainersListSpec(json, daemon, h).value.Ok?
    ensures var cs := ContainersListSpec(json, daemon, h).value.value;
      var ids := Ids(Named(cs, container));
      CleanupSpec(json, daemon, h, container) == Effect(Ok(0), h + [Ps] + (if ids == [] then [] else [Stop(ids), Rm(ids)]))
      && forall i :: 0 <= i < |ids| ==> exists c :: c in cs && c.names == JStr(container) && c.id == ids[i]
  {
    var cs := ContainersListSpec(json, daemon, h).value.value;
    var staging := Named(cs, container);
    var ids := Ids(staging);
    FlattenIds(ids);
    forall i | 0 <= i < |ids|
      ensures exists c :: c in cs && c.names == JStr(container) && c.id == ids[i]
    {
      assert staging[i] in staging;
    }
  }

  /**
   * `--remove-staging` runs after the `try` block however it ended, commit or
   * swallowed AttributeError: `build` then ends with the cleanup.
   */
  lemma CleanupAfterTry(json: string -> Option<Json>, shlex: string -> Option<seq<string>>, str: Json -> string,
                        daemon: Daemon, h: seq<Call>, args: BuildArgs)
    requires ImageCheckSpec(json, str, daemon, h, args.source).value == Ok(true)
    requires BaseContainerSpec(json, daemon, h + [Images], args.source, args.container, args.rerun).value.Ok?
    requires !args.script.Unloadable? && args.removeStaging
    requires var b := BaseContainerSpec(json, daemon, h + [Images], args.source, args.container, args.rerun);
      TrySpec(json, shlex, daemon, b.trace, args.container, args.target, RunOf(args.script)).value.Ok?
    ensures var b := BaseContainerSpec(json, daemon, h + [Images], args.source, args.container, args.rerun);
      var t := TrySpec(json, shlex, daemon, b.trace, args.container, args.target, RunOf(args.script));
      BuildSpec(json, shlex, str, daemon, h, args) == CleanupSpec(json, daemon, t.trace, args.container)
  {
    ImageCheckIff(json, str, daemon, h, args.source);
  }

  /** `halt` with no id and without `--all` exits with status 1 before any call. */
  lemma HaltNeedsTargets(json: string -> Option<Json>, daemon: Daemon, h: seq<Call>, ids: seq<string>, all: bool)
    ensures HaltSpec(json, daemon, h, ids, all) == Effect(Ok(1), h) <==> ids == [] && !all
  {
    if ids != [] || all {
      var given := [IdList(Strs(ids))];
      var h1 := if ids != [] then RemoveSpec(daemon, StopSpec(daemon, h, given).trace, given).trace else h;
      assert |h1| >= |h|;
      if all {
        var l := ContainersListSpec(json, daemon, h1);
        if l.value.Ok? {
          var each := IdArgs(Ids(l.value.value));
          assert |RemoveSpec(daemon, StopSpec(daemon, l.trace, each).trace, each).trace| >= |l.trace|;
        }
      }
    }
  }

  /**
   * `halt -c id ...`: the given ids are stopped, then removed, as one list each,
   * before anything else.
   */
  lemma HaltGiven(json: string -> Option<Json>, daemon: Daemon, h: seq<Call>, ids: seq<string>, all: bool)
    requires ids != []
    ensures var t := HaltSpec(json, daemon, h, ids, all).trace;
      |t| >= |h| + 3 && t[..|h| + 2] == h + [Stop(Strs(ids)), Rm(Strs(ids))]
  {
    var given := [IdList(Strs(ids))];
    assert Flatten(given) == Strs(ids) by {
      assert given[..0] == [];
    }
    var h1 := RemoveSpec(daemon, StopSpec(daemon, h, given).trace, given).trace;
    assert h1 == h + [Stop(Strs(ids)), Rm(Strs(ids))];
    if all {
      var l := ContainersListSpec(json, daemon, h1);
      if l.value.Ok? {
        var each := IdArgs(Ids(l.value.value));
        var h2 := RemoveSpec(daemon, StopSpec(daemon, l.trace, each).trace, each).trace;
        assert Extends(l.trace, h2);
        ExtendsTrans(h1, l.trace, h2);
        var f := FinalListingSpec(json, daemon, h2);
        ExtendsTrans(h1, h2, f.trace);
      }
    }
  }

  /**
   * `halt --all` alone: the containers are listed, every listed id is stopped,
   * then removed, and the containers are listed once more.
   */
  lemma HaltAll(json: string -> Option<Json>, daemon: Daemon, h: seq<Call>)
    requires ContainersListSpec(json, daemon, h).value.Ok?
    ensures var ids := Ids(ContainersListSpec(json, daemon, h).value.value);
      var e := HaltSpec(json, daemon, h, [], true);
      e.trace == h + [Ps] + (if ids == [] then [] else [Stop(ids), Rm(ids)]) + [Ps]
  {
    var l := ContainersListSpec(json, daemon, h);
    var ids := Ids(l.value.value);
    FlattenIds(ids);
    assert Strs([]) == [];
    var each := IdArgs(ids);
    if ids == [] {
      assert each == [];
    }
    var h2 := RemoveSpec(daemon, StopSpec(daemon, l.trace, each).trace, each).trace;
    assert h2 == h + [Ps] + (if ids == [] then [] else [Stop(ids), Rm(ids)]);
    assert HaltSpec(json, daemon, h, [], true) == FinalListingSpec(json, daemon, h2);
  }
}
