/**
 * `DockerCLI`: the builder's client of the container engine.  Every engine call
 * (`docker images`, `docker ps -a`, `run`, `stop`, `rm`, `exec`, `commit`) goes
 * through an Engine object that appends the call to its trace and answers with a
 * Daemon function of the calls issued before and of the call itself, so any
 * engine state (the table of containers and their names included) is covered.
 *
 * Each operation is specified by a function from the daemon and the trace before
 * the call to the value returned and the trace after it (an Effect); the methods
 * of DockerCli are proved to agree with those functions, and the lemmas state
 * the guards and the order of calls on them.
 */
module Docker {
  import opened Wrappers
  import opened Text
  import opened Lines
  import opened JsonValues

  /** The engine commands the builder issues, with the arguments it gives them. */
  datatype Call =
    | Images
    | Ps
    | Run(args: seq<string>)
    | Stop(ids: seq<Json>)
    | Rm(ids: seq<Json>)
    | Exec(container: string, args: seq<string>)
    | Commit(container: string, image: string)

  /** A finished command, or one that exited with an error (`sh.ErrorReturnCode`). */
  datatype Reply = Done(stdout: string) | Failed(stdout: string, stderr: string)

  /** How the engine answers a call, given the calls issued before it. */
  type Daemon = (seq<Call>, Call) -> Reply

  /** What an operation returns, and the trace of calls after it. */
  datatype Effect<T> = Effect(value: T, trace: seq<Call>)

  function Issue(daemon: Daemon, h: seq<Call>, c: Call): Effect<Reply> {
    Effect(daemon(h, c), h + [c])
  }

  class Engine {
    /** The calls issued so far, oldest first. */
    var trace: seq<Call>
    const daemon: Daemon

    constructor(daemon: Daemon)
      ensures trace == [] && this.daemon == daemon
    {
      trace := [];
      this.daemon := daemon;
    }

    method Call(c: Call) returns (r: Reply)
      modifies this
      ensures Effect(r, trace) == Issue(daemon, old(trace), c)
    {
      r := daemon(trace, c);
      trace := trace + [c];
    }
  }

  // ---------------------------------------------------------------- listings

  /** A record of `images_list`. */
  datatype Image = Image(id: Json, repository: Json, tag: Json, size: Json, createdAt: Json)

  /** A record of `containers_list`. */
  datatype Container = Container(id: Json, names: Json, image: Json, labels: Json, command: Json,
                                 createdAt: Json, localVolumes: Json, mounts: Json, networks: Json,
                                 ports: Json, status: Json, runningFor: Json, size: Json)

  /** The image record of a line's dictionary: a missing field is '' (0 for the size). */
  function ImageOf(m: map<string, Json>): (img: Image)
    ensures img.id == (if "ID" in m then m["ID"] else JStr(""))
    ensures img.repository == (if "Repository" in m then m["Repository"] else JStr(""))
    ensures img.tag == (if "Tag" in m then m["Tag"] else JStr(""))
    ensures img.size == (if "Size" in m then m["Size"] else JNum(0))
    ensures img.createdAt == (if "CreatedAt" in m then m["CreatedAt"] else JStr(""))
  {
    Image(Get(m, "ID", JStr("")), Get(m, "Repository", JStr("")), Get(m, "Tag", JStr("")),
          Get(m, "Size", JNum(0)), Get(m, "CreatedAt", JStr("")))
  }

  /** The container record of a line's dictionary: a missing field is '' (0 for the size, [] for labels and ports). */
  function ContainerOf(m: map<string, Json>): (c: Container)
    ensures c.id == (if "ID" in m then m["ID"] else JStr(""))
    ensures c.names == (if "Names" in m then m["Names"] else JStr(""))
    ensures c.image == (if "Image" in m then m["Image"] else JStr(""))
    ensures c.labels == (if "Labels" in m then m["Labels"] else JArray([]))
    ensures c.command == (if "Command" in m then m["Command"] else JStr(""))
    ensures c.createdAt == (if "CreatedAt" in m then m["CreatedAt"] else JStr(""))
    ensures c.localVolumes == (if "LocalVolumes" in m then m["LocalVolumes"] else JStr(""))
    ensures c.mounts == (if "Mounts" in m then m["Mounts"] else JStr(""))
    ensures c.networks == (if "Networks" in m then m["Networks"] else JStr(""))
    ensures c.ports == (if "Ports" in m then m["Ports"] else JArray([]))
    ensures c.status == (if "Status" in m then m["Status"] else JStr(""))
    ensures c.runningFor == (if "RunningFor" in m then m["RunningFor"] else JStr(""))
    ensures c.size == (if "Size" in m then m["Size"] else JNum(0))
  {
    Container(Get(m, "ID", JStr("")), Get(m, "Names", JStr("")), Get(m, "Image", JStr("")),
              Get(m, "Labels", JArray([])), Get(m, "Command", JStr("")), Get(m, "CreatedAt", JStr("")),
              Get(m, "LocalVolumes", JStr("")), Get(m, "Mounts", JStr("")), Get(m, "Networks", JStr("")),
              Get(m, "Ports", JArray([])), Get(m, "Status", JStr("")), Get(m, "RunningFor", JStr("")),
              Get(m, "Size", JNum(0)))
  }

  /**
   * One line of a `{{json .}}` listing: an empty line or one `json.loads` rejects
   * is skipped, a dictionary gives a record, and any other value raises
   * AttributeError (it has no `get`).
   */
  function ListLine<T>(json: string -> Option<Json>, record: map<string, Json> -> T, acc: seq<T>, line: string): Result<seq<T>, Exception> {
    if line == "" then Ok(acc)
    else
      match json(line)
      case None => Ok(acc)
      case Some(JObject(m)) => Ok(acc + [record(m)])
      case Some(_) => Err(AttributeError)
  }

  function ListStep<T>(json: string -> Option<Json>, record: map<string, Json> -> T): (seq<T>, string) -> Result<seq<T>, Exception> {
    (acc: seq<T>, line: string) => ListLine(json, record, acc, line)
  }

  /** The records of a listing's output, or the exception the consuming list comprehension sees. */
  function Listing<T>(json: string -> Option<Json>, record: map<string, Json> -> T, out: string): Result<seq<T>, Exception> {
    Scan(ListStep(json, record), [], Split(out, '\n'))
  }

  /** A failed listing command is logged and yields no records. */
  function ListingOf<T>(json: string -> Option<Json>, record: map<string, Json> -> T, reply: Reply): Result<seq<T>, Exception> {
    match reply
    case Done(out) => Listing(json, record, out)
    case Failed(_, _) => Ok([])
  }

  function ImagesListSpec(json: string -> Option<Json>, daemon: Daemon, h: seq<Call>): Effect<Result<seq<Image>, Exception>> {
    var e := Issue(daemon, h, Images);
    Effect(ListingOf(json, ImageOf, e.value), e.trace)
  }

  function ContainersListSpec(json: string -> Option<Json>, daemon: Daemon, h: seq<Call>): Effect<Result<seq<Container>, Exception>> {
    var e := Issue(daemon, h, Ps);
    Effect(ListingOf(json, ContainerOf, e.value), e.trace)
  }

  /** The dictionaries of the lines that parse to one, in order. */
  function Objects(json: string -> Option<Json>, lines: seq<string>): seq<map<string, Json>>
    decreases |lines|
  {
    if lines == [] then []
    else
      var last := lines[|lines| - 1];
      Objects(json, lines[..|lines| - 1])
      + (if last != "" && json(last).Some? && json(last).value.JObject? then [json(last).value.fields] else [])
  }

  /** The number of non-empty lines. */
  function NonEmpty(lines: seq<string>): nat
    decreases |lines|
  {
    if lines == [] then 0 else NonEmpty(lines[..|lines| - 1]) + (if lines[|lines| - 1] != "" then 1 else 0)
  }

  /** A line that makes the listing raise: a non-empty line whose JSON value is not a dictionary. */
  predicate BadLine(json: string -> Option<Json>, line: string) {
    line != "" && json(line).Some? && !json(line).value.JObject?
  }

  predicate AnyBadLine(json: string -> Option<Json>, lines: seq<string>) {
    exists i :: 0 <= i < |lines| && BadLine(json, lines[i])
  }

  /**
   * A listing that does not raise has one record per line that parses to a
   * dictionary, in line order, and so at most one per non-empty line.
   */
  lemma {:induction false} ListingRecords<T>(json: string -> Option<Json>, record: map<string, Json> -> T, lines: seq<string>)
    ensures var r := Scan(ListStep(json, record), [], lines);
      r.Ok? ==>
        var objs := Objects(json, lines);
        |r.value| == |objs| <= NonEmpty(lines)
        && forall i :: 0 <= i < |objs| ==> r.value[i] == record(objs[i])
    decreases |lines|
  {
    if lines != [] {
      var init := lines[..|lines| - 1];
      ListingRecords(json, record, init);
    }
  }

  /** A listing raises (AttributeError) exactly when some line is a JSON value other than a dictionary. */
  lemma ListingFails<T>(json: string -> Option<Json>, record: map<string, Json> -> T, out: string)
    ensures Listing(json, record, out).Err? <==> AnyBadLine(json, Split(out, '\n'))
    ensures Listing(json, record, out).Err? ==> Listing(json, record, out).error == AttributeError
  {
    var lines := Split(out, '\n');
    var fails := (line: string) => BadLine(json, line);
    forall t: seq<T>, i | 0 <= i < |lines|
      ensures ListStep(json, record)(t, lines[i]).Err? <==> fails(lines[i])
    {
      assert ListStep(json, record)(t, lines[i]) == ListLine(json, record, t, lines[i]);
    }
    ScanFailsIff(ListStep(json, record), [], lines, fails);
    assert Listing(json, record, out) == Scan(ListStep(json, record), [], lines);

    assert (exists i :: 0 <= i < |lines| && fails(lines[i])) <==> (exists i :: 0 <= i < |lines| && BadLine(json, lines[i]));
    ListingRaisesAttributeError(json, record, lines);
  }

  lemma {:induction false} ListingRaisesAttributeError<T>(json: string -> Option<Json>, record: map<string, Json> -> T, lines: seq<string>)
    ensures Scan(ListStep(json, record), [], lines).Err? ==> Scan(ListStep(json, record), [], lines).error == AttributeError
    decreases |lines|
  {
    if lines != [] {
      ListingRaisesAttributeError(json, record, lines[..|lines| - 1]);
    }
  }

  /** The records of a well-formed listing, one per line. */
  method CollectRecords<T>(json: string -> Option<Json>, record: map<string, Json> -> T, out: string)
    returns (r: Result<seq<T>, Exception>)
    ensures r == Listing(json, record, out)
  {
    var lines := Split(out, '\n');
    var acc: seq<T> := [];
    for i := 0 to |lines|
      invariant Scan(ListStep(json, record), [], lines[..i]) == Ok(acc)
    {
      assert lines[..i + 1][..i] == lines[..i];
      var details := lines[i];
      if details == "" {
        continue;
      }
      var parsed := json(details);
      if parsed.None? {
        continue;
      }
      if !parsed.value.JObject? {
        ScanStops(ListStep(json, record), [], lines, i + 1);
        assert lines[..|lines|] == lines;
        return Err(AttributeError);
      }
      acc := acc + [record(parsed.value.fields)];
    }
    assert lines[..|lines|] == lines;
    r := Ok(acc);
  }

  // ---------------------------------------------------------------- commands

  /** An argument of `stop_containers`/`remove_containers`: one id, or a list the engine call flattens. */
  datatype Arg = Id(id: Json) | IdList(ids: seq<Json>)

  function Flatten(args: seq<Arg>): (ids: seq<Json>)
    decreases |args|
  {
    if args == [] then []
    else
      var last := args[|args| - 1];
      Flatten(args[..|args| - 1]) + (if last.Id? then [last.id] else last.ids)
  }

  /** The stripped output of a finished command; `[]` (here None) when it failed. */
  function Stripped(r: Reply): Option<string> {
    if r.Done? then Some(Strip(r.stdout)) else None
  }

  /** `run`: the stripped container id, or None when the command fails. */
  function RunSpec(daemon: Daemon, h: seq<Call>, args: seq<string>): Effect<Option<string>> {
    var e := Issue(daemon, h, Run(args));
    Effect(Stripped(e.value), e.trace)
  }

  /** `stop_containers(*ids)`: no call at all when no argument is given. */
  function StopSpec(daemon: Daemon, h: seq<Call>, ids: seq<Arg>): Effect<Option<string>> {
    if ids == [] then Effect(None, h)
    else
      var e := Issue(daemon, h, Stop(Flatten(ids)));
      Effect(Stripped(e.value), e.trace)
  }

  /** `remove_containers(*ids)`: no call at all when no argument is given. */
  function RemoveSpec(daemon: Daemon, h: seq<Call>, ids: seq<Arg>): Effect<Option<string>> {
    if ids == [] then Effect(None, h)
    else
      var e := Issue(daemon, h, Rm(Flatten(ids)));
      Effect(Stripped(e.value), e.trace)
  }

  /** `execute`: the command's output, or `[]` (here None) when it fails. */
  function ExecuteSpec(daemon: Daemon, h: seq<Call>, container: string, args: seq<string>): Effect<Option<string>> {
    var e := Issue(daemon, h, Exec(container, args));
    Effect(if e.value.Done? then Some(e.value.stdout) else None, e.trace)
  }

  /** `commit`: no call when either name is blank; the stripped image id, or `[]` (here None). */
  function CommitSpec(daemon: Daemon, h: seq<Call>, container: string, image: string): Effect<Option<string>> {
    if container == "" || image == "" then Effect(None, h)
    else
      var e := Issue(daemon, h, Commit(container, image));
      Effect(Stripped(e.value), e.trace)
  }

  /** The listed containers whose `names` field is exactly the given name. */
  function Named(cs: seq<Container>, name: string): (r: seq<Container>)
    ensures forall c :: c in r <==> c in cs && c.names == JStr(name)
    ensures |r| <= |cs|
    decreases |cs|
  {
    if cs == [] then []
    else
      var last := cs[|cs| - 1];
      Named(cs[..|cs| - 1], name) + (if last.names == JStr(name) then [last] else [])
  }

  function Ids(cs: seq<Container>): (ids: seq<Json>)
    ensures |ids| == |cs| && forall i :: 0 <= i < |cs| ==> ids[i] == cs[i].id
  {
    seq(|cs|, i requires 0 <= i < |cs| => cs[i].id)
  }

  /** The arguments of the `run` call that starts a base container that stays up. */
  function BaseRunArgs(image: string, name: string): seq<string> {
    ["-d", "--name=" + name, image, "/bin/sh", "-c", "tail -f /dev/null"]
  }

  /**
   * `run_base_container`: an existing container of that exact name is kept (and
   * None returned) unless `rerun`, in which case its ids are stopped and removed
   * before the new container is run.  A failed `run` returns None, on which
   * `.strip()` raises AttributeError.
   */
  function BaseContainerSpec(json: string -> Option<Json>, daemon: Daemon, h: seq<Call>, image: string,
                             name: string, rerun: bool): Effect<Result<Option<string>, Exception>> {
    var listed := ContainersListSpec(json, daemon, h);
    match listed.value
    case Err(e) => Effect(Err(e), listed.trace)
    case Ok(cs) =>
      var existing := Named(cs, name);
      if existing != [] && !rerun then Effect(Ok(None), listed.trace)
      else
        var h1 := if existing == [] then listed.trace
          else RemoveSpec(daemon, StopSpec(daemon, listed.trace, [IdList(Ids(existing))]).trace, [IdList(Ids(existing))]).trace;
        var run := RunSpec(daemon, h1, BaseRunArgs(image, name));
        Effect(if run.value.Some? then Ok(Some(Strip(run.value.value))) else Err(AttributeError), run.trace)
  }

  // ---------------------------------------------------------------- the client

  class DockerCli {
    const engine: Engine
    /** `json.loads`, None when it raises ValueError. */
    const json: string -> Option<Json>

    constructor(engine: Engine, json: string -> Option<Json>)
      ensures this.engine == engine && this.json == json
    {
      this.engine := engine;
      this.json := json;
    }

    method ImagesList() returns (r: Result<seq<Image>, Exception>)
      modifies engine
      ensures Effect(r, engine.trace) == ImagesListSpec(json, engine.daemon, old(engine.trace))
    {
      var reply := engine.Call(Images);
      if reply.Failed? {
        return Ok([]);
      }
      r := CollectRecords(json, ImageOf, reply.stdout);
    }

    method ContainersList() returns (r: Result<seq<Container>, Exception>)
      modifies engine
      ensures Effect(r, engine.trace) == ContainersListSpec(json, engine.daemon, old(engine.trace))
    {
      var reply := engine.Call(Ps);
      if reply.Failed? {
        return Ok([]);
      }
      r := CollectRecords(json, ContainerOf, reply.stdout);
    }

    method Run(args: seq<string>) returns (r: Option<string>)
      modifies engine
      ensures Effect(r, engine.trace) == RunSpec(engine.daemon, old(engine.trace), args)
    {
      var reply := engine.Call(Call.Run(args));
      r := if reply.Done? then Some(Strip(reply.stdout)) else None;
    }

    method RunBaseContainer(image: string, name: string, rerun: bool) returns (r: Result<Option<string>, Exception>)
      modifies engine
      ensures Effect(r, engine.trace) == BaseContainerSpec(json, engine.daemon, old(engine.trace), image, name, rerun)
    {
      var listed := ContainersList();
      if listed.Err? {
        return Err(listed.error);
      }
      var existing := Named(listed.value, name);
      if existing != [] {
        if !rerun {
          return Ok(None);
        }
        var ids := Ids(existing);
        var _ := StopContainers([IdList(ids)]);
        var _ := RemoveContainers([IdList(ids)]);
      }
      var id := Run(BaseRunArgs(image, name));
      if id.None? {
        return Err(AttributeError);
      }
      r := Ok(Some(Strip(id.value)));
    }

    method StopContainers(ids: seq<Arg>) returns (r: Option<string>)
      modifies engine
      ensures Effect(r, engine.trace) == StopSpec(engine.daemon, old(engine.trace), ids)
    {
      if ids == [] {
        return None;
      }
      var reply := engine.Call(Stop(Flatten(ids)));
      r := if reply.Done? then Some(Strip(reply.stdout)) else None;
    }

    method RemoveContainers(ids: seq<Arg>) returns (r: Option<string>)
      modifies engine
      ensures Effect(r, engine.trace) == RemoveSpec(engine.daemon, old(engine.trace), ids)
    {
      if ids == [] {
        return None;
      }
      var reply := engine.Call(Rm(Flatten(ids)));
      r := if reply.Done? then Some(Strip(reply.stdout)) else None;
    }

    method Execute(container: string, args: seq<string>) returns (r: Option<string>)
      modifies engine
      ensures Effect(r, engine.trace) == ExecuteSpec(engine.daemon, old(engine.trace), container, args)
    {
      var reply := engine.Call(Exec(container, args));
      r := if reply.Done? then Some(reply.stdout) else None;
    }

    method Commit(container: string, image: string) returns (r: Option<string>)
      modifies engine
      ensures Effect(r, engine.trace) == CommitSpec(engine.daemon, old(engine.trace), container, image)
    {
      if container == "" || image == "" {
        return None;
      }
      var reply := engine.Call(Call.Commit(container, image));
      r := if reply.Done? then Some(Strip(reply.stdout)) else None;
    }
  }

  // ---------------------------------------------------------------- guards and order

  /** Only an empty argument tuple skips the engine; an empty list passed as one argument does not. */
  lemma StopGuard(daemon: Daemon, h: seq<Call>, ids: seq<Arg>)
    ensures StopSpec(daemon, h, ids).trace == h <==> ids == []
    ensures ids == [] ==> StopSpec(daemon, h, ids).value == None
    ensures StopSpec(daemon, [], [IdList([])]).trace == [Stop([])]
  {
    var args := [IdList([])];
    assert args[..0] == [];
    assert Flatten(args) == [];
    assert StopSpec(daemon, [], args) == Effect(Stripped(daemon([], Stop([]))), [Stop([])]);
  }

  lemma RemoveGuard(daemon: Daemon, h: seq<Call>, ids: seq<Arg>)
    ensures RemoveSpec(daemon, h, ids).trace == h <==> ids == []
    ensures ids == [] ==> RemoveSpec(daemon, h, ids).value == None
  {
  }

  /** `commit` issues a call exactly when both names are non-blank. */
  lemma CommitGuard(daemon: Daemon, h: seq<Call>, container: string, image: string)
    ensures var e := CommitSpec(daemon, h, container, image);
      (e.trace == h <==> container == "" || image == "")
      && (e.trace != h ==> e.trace == h + [Commit(container, image)])
      && (container == "" || image == "" ==> e.value == None)
  {
  }

  /** A failed engine command becomes an empty result instead of an exception. */
  lemma FailuresAreEmpty(json: string -> Option<Json>, daemon: Daemon, h: seq<Call>, args: seq<string>, container: string, image: string)
    ensures daemon(h, Run(args)).Failed? ==> RunSpec(daemon, h, args).value == None
    ensures daemon(h, Exec(container, args)).Failed? ==> ExecuteSpec(daemon, h, container, args).value == None
    ensures daemon(h, Commit(container, image)).Failed? ==> CommitSpec(daemon, h, container, image).value == None
    ensures daemon(h, Images).Failed? ==> ImagesListSpec(json, daemon, h).value == Ok([])
    ensures daemon(h, Ps).Failed? ==> ContainersListSpec(json, daemon, h).value == Ok([])
  {
  }

  /** An existing container and no `rerun`: None, and no call after the listing. */
  lemma BaseContainerKept(json: string -> Option<Json>, daemon: Daemon, h: seq<Call>, image: string, name: string)
    requires var l := ContainersListSpec(json, daemon, h).value; l.Ok? && Named(l.value, name) != []
    ensures BaseContainerSpec(json, daemon, h, image, name, false) == Effect(Ok(None), h + [Ps])
  {
  }

  /**
   * An existing container and `rerun`: the ids of exactly the containers of that
   * name are stopped, then removed, and only then is the new one run.
   */
  lemma BaseContainerRerun(json: string -> Option<Json>, daemon: Daemon, h: seq<Call>, image: string, name: string)
    requires var l := ContainersListSpec(json, daemon, h).value; l.Ok? && Named(l.value, name) != []
    ensures var ids := Ids(Named(ContainersListSpec(json, daemon, h).value.value, name));
      BaseContainerSpec(json, daemon, h, image, name, true).trace == h + [Ps, Stop(ids), Rm(ids), Run(BaseRunArgs(image, name))]
      && IdsNamed(ContainersListSpec(json, daemon, h).value.value, name, ids)
  {
    var listed := ContainersListSpec(json, daemon, h);
    var cs := listed.value.value;
    var ids := Ids(Named(cs, name));
    StopRemoveTrace(daemon, h + [Ps], ids);
    AppendCalls(h, Ps, Stop(ids), Rm(ids), Run(BaseRunArgs(image, name)));
    NamedIds(cs, name);
  }

  lemma StopRemoveTrace(daemon: Daemon, t: seq<Call>, ids: seq<Json>)
    ensures RemoveSpec(daemon, StopSpec(daemon, t, [IdList(ids)]).trace, [IdList(ids)]).trace == t + [Stop(ids), Rm(ids)]
  {
    FlattenOne(ids);
  }

  lemma AppendCalls(h: seq<Call>, a: Call, b: Call, c: Call, d: Call)
    ensures (h + [a]) + [b, c] + [d] == h + [a, b, c, d]
  {
  }

  /** Each of the ids is the id of a listed container of that name. */
  predicate IdsNamed(cs: seq<Container>, name: string, ids: seq<Json>) {
    forall i :: 0 <= i < |ids| ==> IdOfNamed(cs, name, ids[i])
  }

  /** id is the id of a container in cs with that name. */
  predicate IdOfNamed(cs: seq<Container>, name: string, id: Json) {
    exists c :: c in cs && c.names == JStr(name) && c.id == id
  }

  lemma FlattenOne(ids: seq<Json>)
    ensures Flatten([IdList(ids)]) == ids
  {
    assert [IdList(ids)][..0] == [];
  }

  /** Each id of the named containers is the id of a listed container of that name. */
  lemma NamedIds(cs: seq<Container>, name: string)
    ensures IdsNamed(cs, name, Ids(Named(cs, name)))
  {
    var existing := Named(cs, name);
    var ids := Ids(existing);
    forall i | 0 <= i < |ids|
      ensures IdOfNamed(cs, name, ids[i])
    {
      var c := existing[i];
      assert c in existing;
      assert c in cs && c.names == JStr(name) && c.id == ids[i];
    }
  }

  /** No container of that name: the listing, then the `run` call. */
  lemma BaseContainerNew(json: string -> Option<Json>, daemon: Daemon, h: seq<Call>, image: string, name: string, rerun: bool)
    requires var l := ContainersListSpec(json, daemon, h).value; l.Ok? && Named(l.value, name) == []
    ensures var e := BaseContainerSpec(json, daemon, h, image, name, rerun);
      e.trace == h + [Ps, Run(BaseRunArgs(image, name))]
      && (daemon(h + [Ps], Run(BaseRunArgs(image, name))).Failed? ==> e.value == Err(AttributeError))
  {
  }
}
