/**
 * `ContainerContext`: the handle a build script gets on the staging container.
 * Creating one lists the containers and fails unless one has exactly the given
 * name; `cmd` tokenises each argument on its own (`shlex.split`, a parameter
 * here) and runs it in that container, collecting the stripped outputs.
 */
module Containers {
  import opened Wrappers
  import opened Text
  import opened JsonValues
  import opened Docker

  function NamesOf(cs: seq<Container>): (names: seq<Json>)
    ensures |names| == |cs| && forall i :: 0 <= i < |cs| ==> names[i] == cs[i].names
  {
    seq(|cs|, i requires 0 <= i < |cs| => cs[i].names)
  }

  /** The constructor's check: the listing, then RuntimeError unless a container has exactly that name. */
  function OpenSpec(json: string -> Option<Json>, daemon: Daemon, h: seq<Call>, name: string): Effect<Result<(), Exception>> {
    var listed := ContainersListSpec(json, daemon, h);
    match listed.value
    case Err(e) => Effect(Err(e), listed.trace)
    case Ok(cs) =>
      if JStr(name) in NamesOf(cs) then Effect(Ok(()), listed.trace)
      else Effect(Err(RuntimeError("Container does not exist, " + name)), listed.trace)
  }

  /**
   * One argument of `cmd`: nothing once an exception was raised; otherwise an
   * argument `shlex.split` rejects raises ValueError, and a failed `exec`
   * returns `[]`, whose `.strip()` raises AttributeError.
   */
  function CmdStep(daemon: Daemon, name: string, shlex: string -> Option<seq<string>>,
                   prev: Effect<Result<seq<string>, Exception>>, arg: string): Effect<Result<seq<string>, Exception>> {
    match prev.value
    case Err(_) => prev
    case Ok(outs) =>
      match shlex(arg)
      case None => Effect(Err(ValueError(arg)), prev.trace)
      case Some(tokens) =>
        var e := ExecuteSpec(daemon, prev.trace, name, tokens);
        if e.value.None? then Effect(Err(AttributeError), e.trace)
        else Effect(Ok(outs + [Strip(e.value.value)]), e.trace)
  }

  /** `cmd(*args)`: the arguments one by one, in order. */
  function CmdSpec(daemon: Daemon, h: seq<Call>, name: string, shlex: string -> Option<seq<string>>,
                   args: seq<string>): Effect<Result<seq<string>, Exception>>
    decreases |args|
  {
    if args == [] then Effect(Ok([]), h)
    else CmdStep(daemon, name, shlex, CmdSpec(daemon, h, name, shlex, args[..|args| - 1]), args[|args| - 1])
  }

  class ContainerContext {
    const cli: DockerCli
    const containerName: string

    constructor(cli: DockerCli, containerName: string)
      ensures this.cli == cli && this.containerName == containerName
    {
      this.cli := cli;
      this.containerName := containerName;
    }

    method Cmd(shlex: string -> Option<seq<string>>, args: seq<string>) returns (r: Result<seq<string>, Exception>)
      modifies cli.engine
      ensures Effect(r, cli.engine.trace) == CmdSpec(cli.engine.daemon, old(cli.engine.trace), containerName, shlex, args)
    {
      ghost var h := cli.engine.trace;
      var ret: seq<string> := [];
      for i := 0 to |args|
        invariant CmdSpec(cli.engine.daemon, h, containerName, shlex, args[..i]) == Effect(Ok(ret), cli.engine.trace)
      {
        assert args[..i + 1][..i] == args[..i];
        var tokens := shlex(args[i]);
        if tokens.None? {
          r := Err(ValueError(args[i]));
          CmdStops(cli.engine.daemon, h, containerName, shlex, args, i + 1);
          assert args[..|args|] == args;
          return;
        }
        var out := cli.Execute(containerName, tokens.value);
        if out.None? {
          r := Err(AttributeError);
          CmdStops(cli.engine.daemon, h, containerName, shlex, args, i + 1);
          assert args[..|args|] == args;
          return;
        }
        ret := ret + [Strip(out.value)];
      }
      assert args[..|args|] == args;
      r := Ok(ret);
    }
  }

  /** `ContainerContext(name)`: the handle, bound to the name, when a container has exactly that name. */
  method Open(cli: DockerCli, name: string) returns (r: Result<ContainerContext, Exception>)
    modifies cli.engine
    ensures var s := OpenSpec(cli.json, cli.engine.daemon, old(cli.engine.trace), name);
      cli.engine.trace == s.trace && (r.Ok? <==> s.value.Ok?) && (r.Err? && s.value.Err? ==> r.error == s.value.error)
      && (r.Ok? ==> fresh(r.value) && r.value.cli == cli && r.value.containerName == name)
  {
    var containers := cli.ContainersList();
    if containers.Err? {
      return Err(containers.error);
    }
    if JStr(name) !in NamesOf(containers.value) {
      return Err(RuntimeError("Container does not exist, " + name));
    }
    var ctx := new ContainerContext(cli, name);
    r := Ok(ctx);
  }

  /** Once an argument raises, the later ones issue nothing. */
  lemma {:induction false} CmdStops(daemon: Daemon, h: seq<Call>, name: string, shlex: string -> Option<seq<string>>,
                                    args: seq<string>, i: nat)
    requires i <= |args| && CmdSpec(daemon, h, name, shlex, args[..i]).value.Err?
    ensures CmdSpec(daemon, h, name, shlex, args) == CmdSpec(daemon, h, name, shlex, args[..i])
    decreases |args| - i
  {
    if i < |args| {
      assert args[..i + 1][..i] == args[..i];
      CmdStops(daemon, h, name, shlex, args, i + 1);
    } else {
      assert args[..i] == args;
    }
  }

  /**
   * The handle is made exactly when the listing does not raise and some listed
   * container's name is exactly the given one; otherwise RuntimeError (or the
   * listing's own exception).  Either way the listing is the only call.
   */
  lemma OpenIff(json: string -> Option<Json>, daemon: Daemon, h: seq<Call>, name: string)
    ensures var s := OpenSpec(json, daemon, h, name);
      var listed := ContainersListSpec(json, daemon, h).value;
      s.trace == h + [Ps]
      && (s.value.Ok? <==> listed.Ok? && exists c :: c in listed.value && c.names == JStr(name))
      && (s.value == Err(RuntimeError("Container does not exist, " + name)) <==>
            listed.Ok? && forall c :: c in listed.value ==> c.names != JStr(name))
  {
    var listed := ContainersListSpec(json, daemon, h).value;
    if listed.Ok? {
      var cs := listed.value;
      if JStr(name) in NamesOf(cs) {
        var i :| 0 <= i < |cs| && NamesOf(cs)[i] == JStr(name);
        assert cs[i] in cs;
      }
      if exists c :: c in cs && c.names == JStr(name) {
        var c :| c in cs && c.names == JStr(name);
        var i :| 0 <= i < |cs| && cs[i] == c;
        assert NamesOf(cs)[i] == JStr(name);
      }
    } else {
      ListingNotRuntime(json, daemon, h);
    }
  }

  lemma ListingNotRuntime(json: string -> Option<Json>, daemon: Daemon, h: seq<Call>)
    ensures ContainersListSpec(json, daemon, h).value.Err? ==> ContainersListSpec(json, daemon, h).value.error == AttributeError
  {
    var reply := daemon(h, Ps);
    if reply.Done? {
      ListingFails(json, ContainerOf, reply.stdout);
    }
  }

  /**
   * The calls after h in t are `exec`s in container `name` of the tokens of the
   * first arguments, one per argument and in order.
   */
  predicate ExecsOf(h: seq<Call>, t: seq<Call>, name: string, shlex: string -> Option<seq<string>>, args: seq<string>) {
    |h| <= |t| <= |h| + |args| && t[..|h|] == h
    && forall j :: 0 <= j < |t| - |h| ==> shlex(args[j]).Some? && t[|h| + j] == Exec(name, shlex(args[j]).value)
  }

  /** Each output is the stripped output of the corresponding call after h in t. */
  predicate OutputsOf(daemon: Daemon, h: seq<Call>, t: seq<Call>, outs: seq<string>) {
    |t| == |h| + |outs|
    && forall j :: 0 <= j < |outs| ==> outs[j] == Strip(daemon(t[..|h| + j], t[|h| + j]).stdout)
  }

  lemma CmdStepCalls(daemon: Daemon, h: seq<Call>, name: string, shlex: string -> Option<seq<string>>,
                     prev: Effect<Result<seq<string>, Exception>>, init: seq<string>, arg: string)
    requires ExecsOf(h, prev.trace, name, shlex, init)
    requires prev.value.Ok? ==> |prev.trace| == |h| + |init|
    ensures var e := CmdStep(daemon, name, shlex, prev, arg);
      ExecsOf(h, e.trace, name, shlex, init + [arg]) && (e.value.Ok? ==> |e.trace| == |h| + |init| + 1)
  {
    var e := CmdStep(daemon, name, shlex, prev, arg);
    var args := init + [arg];
    assert forall j :: 0 <= j < |init| ==> args[j] == init[j];
    if prev.value.Ok? && shlex(arg).Some? {
      var tokens := shlex(arg).value;
      assert e.trace == prev.trace + [Exec(name, tokens)];
      assert e.trace[..|h|] == prev.trace[..|h|];
      assert args[|init|] == arg;
    }
  }

  /**
   * `cmd` runs the arguments in order, each tokenised on its own, and every call
   * it issues is an `exec` in the bound container; when it returns, there is one
   * output per argument, the stripped output of that argument's `exec`.
   */
  lemma {:induction false} CmdCalls(daemon: Daemon, h: seq<Call>, name: string, shlex: string -> Option<seq<string>>,
                                    args: seq<string>)
    ensures var e := CmdSpec(daemon, h, name, shlex, args);
      ExecsOf(h, e.trace, name, shlex, args)
      && (e.value.Ok? ==> |e.value.value| == |args| && OutputsOf(daemon, h, e.trace, e.value.value))
    decreases |args|
  {
    if args == [] {
    } else {
      var init, arg := args[..|args| - 1], args[|args| - 1];
      assert args == init + [arg];
      CmdCalls(daemon, h, name, shlex, init);
      var prev := CmdSpec(daemon, h, name, shlex, init);
      CmdStepCalls(daemon, h, name, shlex, prev, init, arg);
      var e := CmdSpec(daemon, h, name, shlex, args);
      assert e == CmdStep(daemon, name, shlex, prev, arg);
      if e.value.Ok? {
        var tokens := shlex(arg).value;
        CmdOutputs(daemon, h, prev.trace, prev.value.value, Exec(name, tokens));
      }
    }
  }

  lemma CmdOutputs(daemon: Daemon, h: seq<Call>, t: seq<Call>, outs: seq<string>, call: Call)
    requires OutputsOf(daemon, h, t, outs)
    ensures OutputsOf(daemon, h, t + [call], outs + [Strip(daemon(t, call).stdout)])
  {
    var outs', t' := outs + [Strip(daemon(t, call).stdout)], t + [call];
    forall j | 0 <= j < |outs'|
      ensures outs'[j] == Strip(daemon(t'[..|h| + j], t'[|h| + j]).stdout)
    {
      if j < |outs| {
        assert t'[..|h| + j] == t[..|h| + j];
        assert t'[|h| + j] == t[|h| + j];
      } else {
        assert t'[..|h| + j] == t;
      }
    }
  }
}
