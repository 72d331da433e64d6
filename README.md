# docker-image-builder, modelled in Dafny

This project models `docker-image-builder` and proves properties of the model. The tool builds Docker images in three steps:

1. it starts a staging container from a base image;
2. it runs a Python build script against that container, one shell command at a time;
3. it commits the container to a new image.

The model covers two parts of the tool.

- **Host-fact parsers and network helpers**:
  - the parsers of `/proc/cpuinfo`, `/proc/meminfo`, `env`, the release files, `resolv.conf` and `ifconfig` output;
  - the IPv4 netmask and population-count helpers;
  - the `sys.path` cleaner.
- **The orchestration**:
  - the `docker` command wrapper (`DockerCLI`);
  - the container handle given to build scripts (`ContainerContext`);
  - the JSON/YAML data loader with its per-file cache;
  - the `run`, `build` and `halt` commands.

The container engine, `json.loads`, `yaml.load_all`, `shlex.split`, the build script and the file system are abstract:

- The engine is a function from the calls issued so far, and the new call, to a reply. It is either a finished command with its output or a failed one.
- Every operation over the engine is an `Effect`: what it returns, and the trace of engine calls after it.
- Each method is proved equal to a specification function. The lemmas then state the guards and the call order in terms of that function.

Modules, one per file:

| file | module | source |
|---|---|---|
| `wrappers.dfy` | `Wrappers` | Option, Result, and the Python exceptions that can escape |
| `text.dfy` | `Text` | `str` operations: `split`, `strip`, `splitlines`, `lower`, `rjust`, `int()` and decimal formatting |
| `lines.dfy` | `Lines` | line folds, and folds that can raise, with their frame lemmas |
| `seqs.dfy` | `Seqs` | append-if-missing (the dedup idiom of the parsers) |
| `network.dfy` | `Network` | `src/builder/utils/network.py` |
| `syspath.dfy` | `SysPath` | `src/builder/utils/__init__.py` |
| `facts.dfy` | `HostFacts` | `src/builder/utils/facts.py`, except `parse_ifconfig` |
| `ifconfig.dfy` | `Ifconfig` | `parse_ifconfig` in `src/builder/utils/facts.py` |
| `module_facts.dfy` | `ModuleFacts` | `parse_cpuinfo` in `src/builder/modules/facts.py`; its `parse_meminfo` is the same code as the utils one and is modelled by `HostFacts.ParseMeminfo` |
| `json.dfy` | `JsonValues` | JSON values and `dict.get` |
| `docker.dfy` | `Docker` | `src/builder/docker.py` |
| `container.dfy` | `Containers` | `src/builder/container.py` |
| `dataloader.dfy` | `DataLoading` | `src/builder/dataloader.py` |
| `cli.dfy` | `Cli` | `run`, `build` and `halt` of `src/builder/cli.py` |

Python behaviour the model keeps as the code has it:

- **Generators and list comprehensions:**
  - A generator that raises `StopIteration` ends the listing with the records yielded so far.
  - A JSON line that is not a dictionary makes `.get` raise AttributeError. That exception reaches the caller.
- **`sh` flattening:** `sh` flattens list arguments. So `stop_containers(ids)` with a list (`docker.py:105-106`, `cli.py:140-141`) calls the engine with the ids, even when the list is empty (only an empty argument tuple skips the call).
- **`None` results:**
  - `run` returns `None` on failure, and `docker.py:107` then raises AttributeError on `.strip()`.
  - `execute` returns `[]` on failure, so `ContainerContext.cmd` raises AttributeError on its `.strip()`.
- **`build`:**
  - Only AttributeError is caught there. A RuntimeError raised by the handle for a missing container escapes.
  - A build step whose `exec` fails is swallowed, and the commit is skipped.
  - `build_script.run` is looked up before the handle is made.
- **`halt`:** it ends with one more container listing.
- **`parse_ifconfig`:** its aliasing of dictionaries and lists is modelled with an explicit store (see `ifconfig.dfy`).

Two expectations about `parse_ifconfig` do not hold for the code as written. The model, and these notes, follow the code:

- **`up` flag.** It is not "some line of the group contains UP" (see Findings).
- **Duplicate `inet` records.** The lists are not always free of duplicates. Line `facts.py:195` appends without a check into the list that `ret[iface]` shares. Two identical `inet` lines in one group therefore give two equal records. Only the merge step itself adds no duplicates (`Ifconfig.MergeOlderWins`).
- **Lists shared across interfaces.** A lone `\r` ends a line for `splitlines` but does not start a group (`facts.py:165`). So `a\rb\n inet …` puts two interfaces in one group, with one `data` and one `inet` list. A later merge into that list (`facts.py:217`) then also changes the list the other interface holds. `Ifconfig.MergeOlderWins` keeps every other list, but not one shared in this way.

## Model

| member | source | states |
|---|---|---|
| Network.Ipv4ToBits | src/builder/utils/network.py:4-10 | `ipv4_to_bits` raises exactly when some dot-separated part is not an integer |
| Network.PartsBitsFails | src/builder/utils/network.py:10 | the conversion raises exactly when some dot-separated part is not an integer |
| Network.BinDigitsValue | src/builder/utils/network.py:10 | `bin(n)[2:]` denotes n |
| Network.PaddedValue | src/builder/utils/network.py:10 | `rjust(8, '0')` of at most eight binary digits gives eight digits with the same value |
| Network.Ipv4ToBitsOfQuad | src/builder/utils/network.py:4-10 | a dotted quad of octets 0..255 becomes 32 binary digits, 8 per octet, whose value is the address read as one 32-bit number |
| Network.NumberOfSetBits | src/builder/utils/network.py:13-24 | the SWAR sequence returns the population count of its 32-bit input, at most 32 |
| Network.SwarCounts | src/builder/utils/network.py:19-24 | the four stages together give the number of set bits |
| Network.SwarFitsIn32Bits | src/builder/utils/network.py:19-23 | no intermediate value wraps, so 32-bit arithmetic agrees with Python's integers |
| Network.CidrToIpv4Netmask | src/builder/utils/network.py:27-50 | the loop over the four octets computes CidrNetmask |
| Network.NetmaskEmpty | src/builder/utils/network.py:33-38 | the result is "" exactly when `int()` fails or the prefix is outside 1..32 |
| Network.NetmaskQuad | src/builder/utils/network.py:40-50 | for prefixes 1..32 the result is four dot-separated decimal octets |
| Network.OctetShape | src/builder/utils/network.py:44-49 | each octet is 255 when covered, 256 - 2^(8-r) for the partial one, 0 after; octets never increase |
| Network.NetmaskBits | src/builder/utils/network.py:41-49 | read back by `ipv4_to_bits`, the mask of prefix n is n ones followed by 32 - n zeros |
| Network.MaskRun | src/builder/utils/network.py:41-49 | that text has exactly n set bits and denotes 2^32 - 2^(32-n) |
| Network.NumberOfSetBitsToIpv4Netmask | src/builder/utils/network.py:53-60 | the netmask of the prefix whose length is the population count of the input |
| Network.SetBitsNetmaskEmpty | src/builder/utils/network.py:53-60 | the netmask of a mask value is "" exactly when no bit is set |
| Network.SetBitsNetmaskExample | src/builder/utils/network.py:57 | 0xffffff00 has 24 set bits and gives 255.255.255.0 |
| SysPath.CleanSyspath | src/builder/utils/__init__.py:6-25 | the loop returns KeptPaths of the input |
| SysPath.KeptIndices | src/builder/utils/__init__.py:12-25 | the kept paths sit at increasing input positions: a subsequence in the same order |
| SysPath.KeptMembers | src/builder/utils/__init__.py:13-24 | a path is kept exactly when it is in the input and ends in none of the five suffixes |
| SysPath.NoneExcluded | src/builder/utils/__init__.py:14-23 | no kept path ends in an excluded suffix |
| SysPath.KeptOfClean | src/builder/utils/__init__.py:24 | every path is kept when none ends in an excluded suffix |
| SysPath.Idempotent | src/builder/utils/__init__.py:12-25 | cleaning a cleaned path list changes nothing |
| Seqs.AppendMissing | src/builder/utils/facts.py:125-127 | the list keeps its prefix, gains every offered element and nothing else |
| Seqs.ExtendMissing | src/builder/utils/facts.py:125-127 | the append-if-missing loop computes AppendMissing |
| Seqs.AppendMissingNoDup | src/builder/utils/facts.py:117-130 | appending only missing elements keeps a list free of duplicates |
| Seqs.AppendMissingIsFirstOccurrences | src/builder/utils/facts.py:117-130 | from an empty list the result is the offered elements at their first occurrence, in order |
| Seqs.AppendMissingConcat | src/builder/utils/facts.py:108-132 | line by line appending equals appending everything offered at once |
| Seqs.AppendPresent | src/builder/utils/facts.py:118-119 | nothing is appended when every offered element is already there |
| Text.ParseSignSpaceDigits | src/builder/utils/facts.py:23 | `int()` skips whitespace after the sign: a sign, blanks and digits give the signed value of the digits |
| HostFacts.ColonPair | src/builder/utils/facts.py:17-21 | a pair exactly when the line splits on ':' into two parts |
| HostFacts.CpuDefaults | src/builder/utils/facts.py:31-36 | all three keys present; written values kept; defaults 0, "Unknown", [] for the absent ones |
| HostFacts.ParseCpuinfo | src/builder/utils/facts.py:8-37 | the loop and defaults compute CpuInfo, ValueError included |
| HostFacts.CpuinfoLine | src/builder/utils/facts.py:17-30 | one pass of the loop: a line that is not one `k: v` pair leaves the facts alone, otherwise the stripped key and value update them as CpuLine says |
| HostFacts.CpuinfoEntry | src/builder/utils/facts.py:22-30 | the key chooses the field: `processor` sets the count to int(v) + 1 or raises ValueError, `model name` the model, `flags` and `Features` the flags, as CpuEntry says |
| HostFacts.CpuLineFrame | src/builder/utils/facts.py:16-30 | a line writes at most the key it names and keeps every other entry |
| HostFacts.CpuSkipsOddLine | src/builder/utils/facts.py:16-19 | a line not splitting into exactly two parts changes nothing wherever it stands |
| HostFacts.CpuFails | src/builder/utils/facts.py:22-23 | the parse raises exactly when some `processor` value is not an integer |
| HostFacts.CpuDefaultsWhenAbsent | src/builder/utils/facts.py:31-36 | every key is present; the default stands exactly when no line names the key |
| HostFacts.CpuCountFromLastProcessor | src/builder/utils/facts.py:22-23 | `num_cpus` is the index on the last `processor` line plus one |
| HostFacts.CpuFlagsFromLastLine | src/builder/utils/facts.py:26-30 | the last `flags`/`Features` line decides: `flags` whole text, `Features` a word list |
| HostFacts.Mebibytes | src/builder/utils/facts.py:55 | IndexError/ValueError exactly when there is no first word or it is not an integer; otherwise the count divided by 1024, rounded down |
| HostFacts.MebibytesOfCount | src/builder/utils/facts.py:55-57 | a count followed by its unit gives the count // 1024 (16384000 kB gives 16000) |
| HostFacts.ParseMeminfo | src/builder/utils/facts.py:40-58 | the loop computes MemInfo |
| HostFacts.MeminfoLine | src/builder/utils/facts.py:48-57 | one pass of the loop: a line that is not one `k: v` pair leaves the dictionary alone, otherwise the key and value update it as MemLine says |
| HostFacts.MeminfoEntry | src/builder/utils/facts.py:54-57 | `MemTotal` and `MemFree` store the first number of the value in mebibytes or raise, other keys change nothing, as MemEntry says |
| HostFacts.MemPresentIffLine | src/builder/utils/facts.py:47-58 | no defaults: `mem_total`/`mem_free` present exactly when a `MemTotal`/`MemFree` line is |
| HostFacts.MemFromLastLine | src/builder/utils/facts.py:54-57 | the last `MemTotal`/`MemFree` line decides the value |
| HostFacts.ParseKeyValues | src/builder/utils/facts.py:61-90 | the loop of `parse_env` and `parse_release` (same body) computes KeyValues |
| HostFacts.ValueKeepsEquals | src/builder/utils/facts.py:70-73 | only the first '=' splits; both sides stripped; the value keeps later '=' |
| HostFacts.KeyValueSkipsLine | src/builder/utils/facts.py:70-72 | a line without '=' changes nothing wherever it stands |
| HostFacts.KeyPresentIffDefined | src/builder/utils/facts.py:68-74 | a key is present exactly when some line defines it |
| HostFacts.LastDefinitionWins | src/builder/utils/facts.py:73 | a later definition of a key overwrites every earlier one |
| HostFacts.ParseResolv | src/builder/utils/facts.py:93-140 | the loop computes ResolvConf |
| HostFacts.ApplyKeyword | src/builder/utils/facts.py:116-132 | the keyword branch, IndexError skip included, computes ResolvKeyword |
| HostFacts.ResolvLineList | src/builder/utils/facts.py:117-130 | each line appends to `nameservers`/`sortlist`/`options` only the offered arguments not yet listed |
| HostFacts.ResolvListsAreFirstOccurrences | src/builder/utils/facts.py:108-132 | each list is all offered arguments at their first occurrence, in line order |
| HostFacts.ResolvNoDuplicates | src/builder/utils/facts.py:117-130 | no list holds an entry twice |
| HostFacts.LastDomainWins | src/builder/utils/facts.py:120-121 | `domain` is the argument of the last `domain` line that has one |
| HostFacts.LastSearchWins | src/builder/utils/facts.py:122-123 | `search` is the arguments of the last `search` line |
| HostFacts.NoDomainLine | src/builder/utils/facts.py:105 | without a `domain` line with an argument the domain stays "" |
| HostFacts.CommentsSkipped | src/builder/utils/facts.py:109-114 | blank lines and lines whose first word is `#` or `;` change nothing |
| HostFacts.KeywordCaseInsensitive | src/builder/utils/facts.py:116 | two lines whose keywords agree once lower-cased, with the same arguments, have the same effect |
| ModuleFacts.ParseCpuinfo | src/builder/modules/facts.py:4-32 | the loop and defaults compute TokenCpuInfo |
| ModuleFacts.CpuinfoLine | src/builder/modules/facts.py:12-25 | one pass of the loop, as TokenCpuLine says |
| ModuleFacts.CpuinfoEntry | src/builder/modules/facts.py:18-25 | the key chooses the field, with `flags` split into words as `Features` is, as TokenCpuEntry says |
| ModuleFacts.EntryDiffersOnFlagsOnly | src/builder/modules/facts.py:22-23 | a `flags` line is split into words; every other entry matches the utils version |
| ModuleFacts.TokenLineFrame | src/builder/modules/facts.py:12-25 | a line writes at most the key it names |
| ModuleFacts.TokenSkipsOddLine | src/builder/modules/facts.py:12-15 | only lines that split into exactly two parts count |
| ModuleFacts.TokenDefaultsWhenAbsent | src/builder/modules/facts.py:26-31 | every key is present; the default stands exactly when no line names the key |
| ModuleFacts.TokenFlagsFromLastLine | src/builder/modules/facts.py:22-25 | `flags` and `Features` both give the word list; the last such line decides |
| ModuleFacts.TokenCountFromLastProcessor | src/builder/modules/facts.py:18-19 | `num_cpus` is the last `processor` index plus one |
| ModuleFacts.ScansAgree | src/builder/modules/facts.py:11-25 | the two line loops raise on the same inputs and agree on all but `cpu_flags` |
| ModuleFacts.CpuInfoVersionsAgree | src/builder/modules/facts.py:4-32 | both `parse_cpuinfo` raise on the same inputs and agree on `num_cpus` and `cpu_model` |
| Ifconfig.Groups | src/builder/utils/facts.py:165 | at least one group; each cut is a line break followed by a non-blank |
| Ifconfig.IfaceName | src/builder/utils/facts.py:155 | a name exactly when the line starts with neither whitespace nor ':'; it is a prefix of the line |
| Ifconfig.HasUp | src/builder/utils/facts.py:207-209 | true exactly when "UP" occurs in the line |
| Ifconfig.ParseIfconfig | src/builder/utils/facts.py:143-222 | the group and line loops compute IfconfigFacts |
| Ifconfig.ParseGroup | src/builder/utils/facts.py:166-221 | one group: the reset of `iface`, `data` and `updown`, then the line loop, leave the state GroupLines gives |
| Ifconfig.LineUpdate | src/builder/utils/facts.py:171-211 | one line's updates to `iface`, `data` and `updown` compute SetUp(LineFields) |
| Ifconfig.AddInet | src/builder/utils/facts.py:179-195 | the `inet` branch computes InetStep |
| Ifconfig.MergeData | src/builder/utils/facts.py:212-221 | the store-or-merge step computes Merge |
| Ifconfig.MergeOlderWins | src/builder/utils/facts.py:212-219 | stored fields win; the stored `inet` list gains exactly the missing records and stays duplicate-free; other interfaces keep their slot and dictionary, and every other list is unchanged |
| Ifconfig.LineFieldsFrame | src/builder/utils/facts.py:171-209 | a line changes only the group's dictionary, `iface` and `updown` |
| Ifconfig.IfconfigShape | src/builder/utils/facts.py:197-211 | every interface has `up`, and any `inet6` list is empty |
| Ifconfig.GroupKeys | src/builder/utils/facts.py:170-221 | after a group the stored names are the old ones, the starting name and those its lines name |
| Ifconfig.IfconfigKeys | src/builder/utils/facts.py:165-221 | the interfaces are exactly the names starting lines, and possibly "" |
| Ifconfig.UpFromFirstTwoLines | src/builder/utils/facts.py:207-221 | as written, a new interface's `up` is decided by its group's first two lines |
| Ifconfig.UpOnThirdLineLost | src/builder/utils/facts.py:207-221 | as written, "e\n \n UP" reports interface "e" as not up |
| Ifconfig.GroupFieldsFrame | src/builder/utils/facts.py:170-209 | lines naming no interface change only `data` and `updown`; `updown` becomes "some line had UP" |
| Ifconfig.UpFromAnyLine | src/builder/utils/facts.py:207-221 | corrected: with one merge per group, `up` is true exactly when some line of the group has "UP" |
| Ifconfig.UpOnThirdLineKept | src/builder/utils/facts.py:207-221 | corrected: "e\n \n UP" reports "e" as up |
| Docker.Engine.Call | src/builder/docker.py:78-82 | a call appends to the trace and gets the daemon's reply to it |
| Docker.ImageOf | src/builder/docker.py:28-34 | each field is the JSON field or its default ('' and 0 for `size`) |
| Docker.ContainerOf | src/builder/docker.py:53-67 | each of the thirteen fields is the JSON field or its default ('', 0 for `size`, [] for `labels` and `ports`) |
| Docker.ListingRecords | src/builder/docker.py:20-34 | one record per dictionary line, in order; at most one per non-empty line |
| Docker.ListingFails | src/builder/docker.py:24-29 | the listing raises AttributeError exactly when a non-empty line parses to a non-dictionary |
| Docker.CollectRecords | src/builder/docker.py:19-34 | the generator loop computes Listing |
| Docker.DockerCli.ImagesList | src/builder/docker.py:15-37 | one `images` call; result and trace as ImagesListSpec |
| Docker.DockerCli.ContainersList | src/builder/docker.py:39-70 | one `ps` call; result and trace as ContainersListSpec |
| Docker.DockerCli.Run | src/builder/docker.py:72-82 | one `run` call; stripped output or None |
| Docker.DockerCli.RunBaseContainer | src/builder/docker.py:84-109 | result and calls as BaseContainerSpec |
| Docker.DockerCli.StopContainers | src/builder/docker.py:111-127 | as StopSpec: no call for an empty argument tuple |
| Docker.DockerCli.RemoveContainers | src/builder/docker.py:129-145 | as RemoveSpec: no call for an empty argument tuple |
| Docker.DockerCli.Execute | src/builder/docker.py:147-164 | one `exec` call; unstripped output or None |
| Docker.DockerCli.Commit | src/builder/docker.py:166-193 | as CommitSpec: no call for a blank name |
| Docker.Named | src/builder/docker.py:97 | the listed containers whose `names` field equals the name exactly |
| Docker.Ids | src/builder/docker.py:104 | the `id` of each container, in order |
| Docker.StopGuard | src/builder/docker.py:119-121 | no call exactly for no argument; a list argument is flattened, so `[[]]` still calls `stop` |
| Docker.RemoveGuard | src/builder/docker.py:137-139 | no call and `[]` exactly for an empty argument tuple |
| Docker.CommitGuard | src/builder/docker.py:178-182 | a `commit` call exactly when both names are non-blank |
| Docker.FailuresAreEmpty | src/builder/docker.py:157-164 | failed `run`/`exec`/`commit` give the empty result, None standing for the source's `[]`; a failed listing gives no records (lines 35-37, 80-82, 191-193) |
| Docker.BaseContainerKept | src/builder/docker.py:97-102 | existing name, no `rerun`: None, and no call after the listing |
| Docker.BaseContainerRerun | src/builder/docker.py:103-107 | existing name, `rerun`: stop, then rm of exactly the matching ids, then `run -d` |
| Docker.BaseContainerNew | src/builder/docker.py:97-109 | no container of that name: listing, then `run`; a failed `run` raises AttributeError |
| Containers.NamesOf | src/builder/container.py:11 | the `names` field of each listed container, in order |
| Containers.ContainerContext.constructor | src/builder/container.py:15 | the handle is bound to the given name |
| Containers.Open | src/builder/container.py:8-15 | a fresh handle bound to the name exactly when OpenSpec succeeds; otherwise its exception |
| Containers.ContainerContext.Cmd | src/builder/container.py:17-27 | the argument loop computes CmdSpec, stopping at the first exception |
| Containers.CmdStops | src/builder/container.py:24-26 | after an argument raises, later ones issue nothing |
| Containers.OpenIff | src/builder/container.py:11-13 | one listing; success exactly when some container has the name; RuntimeError exactly when none does |
| Containers.CmdCalls | src/builder/container.py:23-27 | each call is an `exec` in the bound container of one argument's own tokens, in order; on return, one stripped output per argument |
| DataLoading.TruthyDocs | src/builder/dataloader.py:51 | exactly the true documents, never more than given |
| DataLoading.Load | src/builder/dataloader.py:36-55 | empty data loads as None, and a dictionary never comes out |
| DataLoading.LoadEmpty | src/builder/dataloader.py:39-41 | empty data loads as None |
| DataLoading.LoadJson | src/builder/dataloader.py:43-46 | a JSON dictionary becomes a one-element list, any other JSON value (a list or a scalar) stays as it is, never a dictionary |
| DataLoading.LoadYaml | src/builder/dataloader.py:47-54 | non-JSON YAML gives exactly its true documents; neither format gives None |
| DataLoading.TruthyDocsIdempotent | src/builder/dataloader.py:51 | dropping false documents twice changes nothing |
| DataLoading.FileSystem.Read | src/builder/dataloader.py:67-68 | the file's content, with the read recorded |
| DataLoading.DataLoader.constructor | src/builder/dataloader.py:33-34 | the cache starts empty |
| DataLoading.DataLoader.LoadFromFile | src/builder/dataloader.py:57-74 | IOError for a missing file; a cached value without a read; else one read, loaded, cached and returned |
| DataLoading.LoadTwice | src/builder/dataloader.py:64-71 | two loads return the same value, read at most once, and keep other cache entries |
| Cli.Tags | src/builder/cli.py:66 | one `"repository:tag"` per listed image, in order |
| Cli.ImageListed | src/builder/cli.py:100-101 | the image check computes ImageCheckSpec |
| Cli.ImageCheckIff | src/builder/cli.py:66-67 | only the listing is issued; the check passes exactly for an exact `"repository:tag"` match |
| Cli.RunCommand | src/builder/cli.py:53-72 | `run` computes RunCommandSpec |
| Cli.UnlistedImageExits | src/builder/cli.py:100-104 | `run` and `build` exit with 1 exactly when the listing passes without the image; then only the listing ran (also lines 66-70) |
| Cli.RunSteps | src/builder/cli.py:110 | the script's steps compute StepsSpec |
| Cli.StepsExecs | src/builder/cli.py:110 | a script's steps issue only `exec` calls in the staging container |
| Cli.TryBlock | src/builder/cli.py:109-114 | the `try` block computes TrySpec |
| Cli.CommitOnlyAfterRun | src/builder/cli.py:109-114 | commit reached exactly when `run` exists, the handle is made and every step returns; otherwise no commit; only AttributeError swallowed |
| Cli.ScriptRunsAfterAcquire | src/builder/cli.py:106-110 | after the base container is acquired, even as None, the next call is the handle's listing |
| Cli.UnloadableScript | src/builder/cli.py:108 | an unloadable script raises after acquisition, with no further call |
| Cli.RemoveStaging | src/builder/cli.py:116-120 | the cleanup computes CleanupSpec |
| Cli.CleanupNamed | src/builder/cli.py:116-120 | a listing, then stop and rm of exactly the ids named like the staging container; none, no call |
| Cli.CleanupAfterTry | src/builder/cli.py:109-120 | with `--remove-staging`, `build` ends with the cleanup, commit or not |
| Cli.Build | src/builder/cli.py:74-120 | `build` computes BuildSpec |
| Cli.Halt | src/builder/cli.py:122-149 | `halt` computes HaltSpec |
| Cli.HaltNeedsTargets | src/builder/cli.py:132-134 | exit 1 with no call exactly when there are no ids and no `--all` |
| Cli.HaltGiven | src/builder/cli.py:138-141 | given ids are stopped, then removed, as one list each, before anything else |
| Cli.HaltAll | src/builder/cli.py:143-149 | `--all`: a listing, stop then rm of exactly the listed ids, then a final listing |

## Left out

- Logging, `log.py`, argparse, `sys.exit` beyond the exit status, and the `sh`-logging switch of `build`. They compute nothing the model needs.
- **Running `docker`:**
  - The real `docker` process is not modelled. The engine is a daemon function of the call history, so a reply may depend on any earlier call. The model does not say how calls change containers.
  - The printing of `err.stdout`/`err.stderr` in `execute` is left out too.
- **One engine for all handles:** each `DockerCLI()` in the source is modelled as one shared engine (`DockerCli` over one `Engine`). `DockerCLI` keeps no state of its own, so one trace records every call.
- **Foreign libraries:** `json.loads`, `yaml.load_all`, `shlex.split`, `imp.load_source`, and `str()` of non-string JSON values inside `"%s:%s"`, are parameters. A parser failure is None. JSON numbers are integers, and floats are not modelled.
- The file system is a `FileSystem` object with an existence test and contents. `os.path.exists`/`isfile` are one predicate, and reading cannot fail.
- `copy.deepcopy` does not appear: values are immutable in the model, so the returned copy and the cache cannot alias.
- Cli.RunSteps: a build script is modelled as a `run(ctx)` that calls `ctx.cmd(*step)` for each step. Scripts that do anything else, call `cmd` with a different handle, or catch exceptions themselves are not modelled.
- Cli.HaltAll: the value of the final listing's own exception (if any) is not stated, only the calls.
- `unicode`/`text_type` handling in `load` is left out. Strings are sequences of characters, and `lower()`/`strip()`/`split()` are ASCII (Python 2 byte strings).
- **`parse_ifconfig` matchers:** the regular expressions other than the interface name, "UP" and the group split are parameters (`Ifconfig.Matchers`):
  - hardware address, IPv4 address, netmask, broadcast and the IPv6 test are abstract;
  - the hexadecimal mask is given as its value.
- The `inet6` address record (`facts.py:201-205`) is built and dropped by the source. Only the creation of the empty `inet6` list is modelled.
- Ifconfig.MergeOlderWins: "no duplicate `inet` records" is stated for the merge step only. The unchecked append at `facts.py:195` can add duplicates within a group.
- Network.CidrToIpv4Netmask: the parameter is an integer or a text for `int()`. Python's `int()` of a float (truncation) is not modelled.
- `int()` accepts surrounding whitespace, a sign, whitespace between the sign and the digits (`int('- 3')` is -3 in Python 2), and decimal digits (Text.ParseSignSpaceDigits). Other bases and non-ASCII digits are not modelled.
- Network.NumberOfSetBits: the input is a 32-bit value. Python integers of 2^32 or more, and negative ones, are outside the model.
- Network.Ipv4ToBitsOfQuad: the result is stated for dotted quads of octets 0..255. For any other text only the failure condition is proved (Network.PartsBitsFails).

## Findings

| source | as written | input that shows it | evidently intended | confidence | as-written member | corrected member |
|---|---|---|---|---|---|---|
| src/builder/utils/facts.py:211-221 | The store-or-merge step runs inside the per-line loop. The first line of a new interface stores `data` itself; the second line merges `data` with itself into a new dictionary, and later merges keep that copy's `up`. So `up` is decided by the group's first two lines | `"e\n \n UP"`: interface `e` is reported with `up` False, although its third line contains "UP" | the merge runs once per group, after its last line (as in the SaltStack function the code is taken from), so `up` is true exactly when some line of the group contains "UP" | not executed | Ifconfig.UpOnThirdLineLost | Ifconfig.UpOnThirdLineKept |
