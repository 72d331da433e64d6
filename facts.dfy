/**
 * The host fact parsers of `builder.utils.facts`: each walks the lines of one
 * command's output (`/proc/cpuinfo`, `/proc/meminfo`, `env`, the release files under `/etc`,
 * `/etc/resolv.conf`), skips the lines that do not fit and fills a dictionary
 * or a resolver record.  `parse_ifconfig` is in module Ifconfig.
 */
module HostFacts {
  import opened Wrappers
  import opened Text
  import opened Lines
  import opened Seqs

  /** A value of a fact dictionary: a number, a text or a list of texts. */
  datatype Value = Int(i: int) | Str(s: string) | Strs(items: seq<string>)

  type Facts = map<string, Value>

  const NumCpus := "num_cpus"
  const CpuModel := "cpu_model"
  const CpuFlags := "cpu_flags"

  /** The stripped key and value of a line that splits on ':' into exactly two parts. */
  function ColonPair(line: string): (kv: Option<(string, string)>)
    ensures kv.Some? <==> |Split(line, ':')| == 2
  {
    var parts := Split(line, ':');
    if |parts| != 2 then None else Some((Strip(parts[0]), Strip(parts[1])))
  }

  // ================================================================ parse_cpuinfo

  /** One line of `/proc/cpuinfo`; `int(v)` on a `processor` line may raise. */
  function CpuLine(ret: Facts, line: string): Result<Facts, Exception> {
    match ColonPair(line)
    case None => Ok(ret)
    case Some((k, v)) => CpuEntry(ret, k, v)
  }

  /** The effect of a `k: v` line. */
  function CpuEntry(ret: Facts, k: string, v: string): Result<Facts, Exception> {
    if k == "processor" then CpuCount(ret, v)
    else if k == "model name" then Ok(ret[CpuModel := Str(v)])
    else if k == "flags" then Ok(ret[CpuFlags := Str(v)])
    else if k == "Features" then Ok(ret[CpuFlags := Strs(Words(v))])
    else Ok(ret)
  }

  /** A `processor` line: `int(v) + 1` CPUs, or the ValueError of `int(v)`. */
  function CpuCount(ret: Facts, v: string): Result<Facts, Exception> {
    match ParseInt(v)
    case None => Err(ValueError(v))
    case Some(n) => Ok(ret[NumCpus := Int(n + 1)])
  }

  /** The three defaults filled in for the keys no line wrote. */
  function CpuDefaults(ret: Facts): (r: Facts)
    ensures NumCpus in r && CpuModel in r && CpuFlags in r
    ensures forall k :: k in ret ==> k in r && r[k] == ret[k]
    ensures NumCpus !in ret ==> r[NumCpus] == Int(0)
    ensures CpuModel !in ret ==> r[CpuModel] == Str("Unknown")
    ensures CpuFlags !in ret ==> r[CpuFlags] == Strs([])
  {
    var r1 := if NumCpus in ret then ret else ret[NumCpus := Int(0)];
    var r2 := if CpuModel in r1 then r1 else r1[CpuModel := Str("Unknown")];
    if CpuFlags in r2 then r2 else r2[CpuFlags := Strs([])]
  }

  /** What `parse_cpuinfo` returns, or the exception it raises. */
  function CpuInfo(info: string): (r: Result<Facts, Exception>) {
    match Scan(CpuLine, map[], Split(info, '\n'))
    case Err(e) => Err(e)
    case Ok(ret) => Ok(CpuDefaults(ret))
  }

  /** `parse_cpuinfo`. */
  method ParseCpuinfo(info: string) returns (r: Result<Facts, Exception>)
    ensures r == CpuInfo(info)
  {
    var lines := Split(info, '\n');
    var ret: Facts := map[];
    for i := 0 to |lines|
      invariant Scan(CpuLine, map[], lines[..i]) == Ok(ret)
    {
      ScanStep(CpuLine, map[], lines, i);
      var next := CpuinfoLine(ret, lines[i]);
      if next.Err? {
        ScanStops(CpuLine, map[], lines, i + 1);
        return next;
      }
      ret := next.value;
    }
    assert lines[..|lines|] == lines;
    if NumCpus !in ret {
      ret := ret[NumCpus := Int(0)];
    }
    if CpuModel !in ret {
      ret := ret[CpuModel := Str("Unknown")];
    }
    if CpuFlags !in ret {
      ret := ret[CpuFlags := Strs([])];
    }
    return Ok(ret);
  }

  /** The body of the line loop of `parse_cpuinfo`; `int(v)` may raise. */
  method CpuinfoLine(ret0: Facts, line: string) returns (r: Result<Facts, Exception>)
    ensures r == CpuLine(ret0, line)
  {
    var kv := Split(line, ':');
    if |kv| != 2 {
      return Ok(ret0);
    }
    var k := Strip(kv[0]);
    var v := Strip(kv[1]);
    assert CpuLine(ret0, line) == CpuEntry(ret0, k, v);
    r := CpuinfoEntry(ret0, k, v);
  }

  /** The `k: v` branches of the line loop. */
  method CpuinfoEntry(ret0: Facts, k: string, v: string) returns (r: Result<Facts, Exception>)
    ensures r == CpuEntry(ret0, k, v)
  {
    if k == "processor" {
      var n := ParseInt(v);
      if n.None? {
        return Err(ValueError(v));
      }
      return Ok(ret0[NumCpus := Int(n.value + 1)]);
    } else if k == "model name" {
      return Ok(ret0[CpuModel := Str(v)]);
    } else if k == "flags" {
      return Ok(ret0[CpuFlags := Str(v)]);
    } else if k == "Features" {
      return Ok(ret0[CpuFlags := Strs(Words(v))]);
    }
    return Ok(ret0);
  }

  /** The fact a `k: v` line of `/proc/cpuinfo` writes, if any. */
  function CpuKey(k: string): Option<string> {
    if k == "processor" then Some(NumCpus)
    else if k == "model name" then Some(CpuModel)
    else if k == "flags" || k == "Features" then Some(CpuFlags)
    else None
  }

  predicate WritesCpu(line: string, key: string) {
    ColonPair(line).Some? && CpuKey(ColonPair(line).value.0) == Some(key)
  }

  /** A line writes at most the one key it names, and leaves every other entry alone. */
  lemma CpuLineFrame(ret: Facts, line: string, key: string)
    ensures CpuLine(ret, line).Ok? ==>
      if WritesCpu(line, key) then key in CpuLine(ret, line).value else KeepsEntry(ret, CpuLine(ret, line).value, key)
  {
    match ColonPair(line)
    case None =>
    case Some((k, v)) =>
      if k == "processor" {
        assert CpuKey(k) == Some(NumCpus);
      } else if k == "model name" {
        assert CpuKey(k) == Some(CpuModel);
      } else if k == "flags" || k == "Features" {
        assert CpuKey(k) == Some(CpuFlags);
      } else {
        assert CpuLine(ret, line) == Ok(ret);
      }
  }

  /** A line that does not split on ':' into exactly two parts changes nothing, wherever it stands. */
  lemma CpuSkipsOddLine(a: seq<string>, line: string, b: seq<string>)
    requires |Split(line, ':')| != 2
    ensures Scan(CpuLine, map[], a + [line] + b) == Scan(CpuLine, map[], a + b)
  {
    ScanSkip(CpuLine, map[], a, line, b);
  }

  /** A `processor` line whose value is not an integer. */
  predicate FailsCpu(line: string) {
    ColonPair(line).Some? && ColonPair(line).value.0 == "processor" && ParseInt(ColonPair(line).value.1).None?
  }

  lemma CpuLineFails(t: Facts, line: string)
    ensures CpuLine(t, line).Err? <==> FailsCpu(line)
  {
    if ColonPair(line).Some? {
      CpuEntryFails(t, ColonPair(line).value.0, ColonPair(line).value.1);
    }
  }

  lemma CpuEntryFails(t: Facts, k: string, v: string)
    ensures CpuEntry(t, k, v).Err? <==> k == "processor" && ParseInt(v).None?
  {
  }

  /** `parse_cpuinfo` raises exactly when a `processor` line does not hold an integer. */
  lemma CpuFails(lines: seq<string>)
    ensures Scan(CpuLine, map[], lines).Err? <==> exists i :: 0 <= i < |lines| && FailsCpu(lines[i])
  {
    forall t: Facts, i | 0 <= i < |lines|
      ensures CpuLine(t, lines[i]).Err? <==> FailsCpu(lines[i])
    {
      CpuLineFails(t, lines[i]);
    }
    ScanFailsIff(CpuLine, map[], lines, FailsCpu);
  }

  /**
   * Every key is in the result; a default stands exactly when no line names the
   * key: 0 processors, model "Unknown", no flags.
   */
  lemma CpuDefaultsWhenAbsent(info: string, key: string)
    requires key == NumCpus || key == CpuModel || key == CpuFlags
    requires CpuInfo(info).Ok?
    ensures NumCpus in CpuInfo(info).value && CpuModel in CpuInfo(info).value && CpuFlags in CpuInfo(info).value
    ensures key !in Scan(CpuLine, map[], Split(info, '\n')).value <==>
      forall i :: 0 <= i < |Split(info, '\n')| ==> !WritesCpu(Split(info, '\n')[i], key)
    ensures (forall i :: 0 <= i < |Split(info, '\n')| ==> !WritesCpu(Split(info, '\n')[i], key)) ==>
      CpuInfo(info).value[key] == (if key == NumCpus then Int(0) else if key == CpuModel then Str("Unknown") else Strs([]))
  {
    var lines := Split(info, '\n');
    forall t: Facts, i | 0 <= i < |lines| && CpuLine(t, lines[i]).Ok?
      ensures if WritesCpu(lines[i], key) then key in CpuLine(t, lines[i]).value
              else KeepsEntry(t, CpuLine(t, lines[i]).value, key)
    {
      CpuLineFrame(t, lines[i], key);
    }
    PresentIffWritten(CpuLine, map[], lines, key, l => WritesCpu(l, key));
  }

  /** The last `processor` line decides the count: its index plus one. */
  lemma CpuCountFromLastProcessor(a: seq<string>, line: string, b: seq<string>, n: int)
    requires ColonPair(line).Some? && ColonPair(line).value.0 == "processor"
    requires ParseInt(ColonPair(line).value.1) == Some(n)
    requires forall i :: 0 <= i < |b| ==> !WritesCpu(b[i], NumCpus)
    ensures var r := Scan(CpuLine, map[], a + [line] + b);
      r.Ok? ==> NumCpus in r.value && r.value[NumCpus] == Int(n + 1)
  {
    CpuProcessorLine(line, n);
    CpuOtherLinesKeepCount(b);
    LastWriteWins(CpuLine, map[], a, line, b, NumCpus, Int(n + 1));
  }

  lemma CpuProcessorLine(line: string, n: int)
    requires ColonPair(line).Some? && ColonPair(line).value.0 == "processor"
    requires ParseInt(ColonPair(line).value.1) == Some(n)
    ensures forall t: Facts :: CpuLine(t, line) == Ok(t[NumCpus := Int(n + 1)])
  {
    var k, v := ColonPair(line).value.0, ColonPair(line).value.1;
    forall t: Facts
      ensures CpuLine(t, line) == Ok(t[NumCpus := Int(n + 1)])
    {
      assert CpuLine(t, line) == CpuEntry(t, k, v);
      CpuProcessorEntry(t, v, n);
    }
  }

  lemma CpuProcessorEntry(t: Facts, v: string, n: int)
    requires ParseInt(v) == Some(n)
    ensures CpuEntry(t, "processor", v) == Ok(t[NumCpus := Int(n + 1)])
  {
    assert CpuEntry(t, "processor", v) == CpuCount(t, v);
  }

  lemma CpuOtherLinesKeepCount(b: seq<string>)
    requires forall i :: 0 <= i < |b| ==> !WritesCpu(b[i], NumCpus)
    ensures forall t: Facts, i :: 0 <= i < |b| && CpuLine(t, b[i]).Ok? ==> KeepsEntry(t, CpuLine(t, b[i]).value, NumCpus)
  {
    forall t: Facts, i | 0 <= i < |b| && CpuLine(t, b[i]).Ok?
      ensures KeepsEntry(t, CpuLine(t, b[i]).value, NumCpus)
    {
      CpuLineFrame(t, b[i], NumCpus);
    }
  }

  /** The value a `flags` or `Features` line gives the flags: the text whole, or split into words. */
  function FlagsValue(k: string, v: string): Value {
    if k == "flags" then Str(v) else Strs(Words(v))
  }

  lemma CpuEntryFlags(t: Facts, k: string, v: string)
    requires k == "flags" || k == "Features"
    ensures CpuEntry(t, k, v) == Ok(t[CpuFlags := FlagsValue(k, v)])
  {
  }

  /**
   * The last `flags` or `Features` line decides the flags: a `flags` line keeps
   * its text whole, a `Features` line is split into words.
   */
  lemma CpuFlagsFromLastLine(a: seq<string>, line: string, b: seq<string>)
    requires WritesCpu(line, CpuFlags)
    requires forall i :: 0 <= i < |b| ==> !WritesCpu(b[i], CpuFlags)
    ensures var r := Scan(CpuLine, map[], a + [line] + b);
      r.Ok? ==> CpuFlags in r.value && r.value[CpuFlags] == FlagsValue(ColonPair(line).value.0, ColonPair(line).value.1)
  {
    var k, v := ColonPair(line).value.0, ColonPair(line).value.1;
    assert k == "flags" || k == "Features" by {
      assert CpuKey(k) == Some(CpuFlags);
    }
    forall t: Facts
      ensures CpuLine(t, line) == Ok(t[CpuFlags := FlagsValue(k, v)])
    {
      assert CpuLine(t, line) == CpuEntry(t, k, v);
      CpuEntryFlags(t, k, v);
    }
    forall t: Facts, i | 0 <= i < |b| && CpuLine(t, b[i]).Ok?
      ensures KeepsEntry(t, CpuLine(t, b[i]).value, CpuFlags)
    {
      CpuLineFrame(t, b[i], CpuFlags);
    }
    LastWriteWins(CpuLine, map[], a, line, b, CpuFlags, FlagsValue(k, v));
  }

  // ================================================================ parse_meminfo

  const MemTotal := "mem_total"
  const MemFree := "mem_free"

  /**
   * `int(v.split()[0]) // 1024`: the first word of a kilobyte count in units of
   * 1024, rounded down; IndexError when there is no word, ValueError when it is
   * not an integer.
   */
  function Mebibytes(v: string): (r: Result<int, Exception>)
    ensures r.Err? <==> Words(v) == [] || ParseInt(Words(v)[0]).None?
    ensures r.Ok? ==> r.value * 1024 <= ParseInt(Words(v)[0]).value < r.value * 1024 + 1024
  {
    var ws := Words(v);
    if ws == [] then Err(IndexError)
    else
      match ParseInt(ws[0])
      case None => Err(ValueError(ws[0]))
      case Some(n) => Ok(n / 1024)
  }

  /** A count followed by its unit is that count in units of 1024, rounded down (16384000 kB gives 16000). */
  lemma MebibytesOfCount(n: nat, unit: string)
    ensures Mebibytes(Decimal(n) + " " + unit) == Ok(n / 1024)
  {
    var d := Decimal(n);
    assert forall i :: 0 <= i < |d| ==> !IsSpace(d[i]);
    assert d + " " + unit == d + (" " + unit);
    FirstWord(d, " " + unit);
    ParseDecimal(n);
  }

  /** One line of `/proc/meminfo`. */
  function MemLine(ret: map<string, int>, line: string): Result<map<string, int>, Exception> {
    match ColonPair(line)
    case None => Ok(ret)
    case Some((k, v)) => MemEntry(ret, k, v)
  }

  /** The effect of a `k: v` line. */
  function MemEntry(ret: map<string, int>, k: string, v: string): Result<map<string, int>, Exception> {
    if k == "MemTotal" then
      match Mebibytes(v)
      case Err(e) => Err(e)
      case Ok(m) => Ok(ret[MemTotal := m])
    else if k == "MemFree" then
      match Mebibytes(v)
      case Err(e) => Err(e)
      case Ok(m) => Ok(ret[MemFree := m])
    else Ok(ret)
  }

  /** What `parse_meminfo` returns, or the exception it raises. */
  function MemInfo(info: string): Result<map<string, int>, Exception> {
    Scan(MemLine, map[], Split(info, '\n'))
  }

  /** `parse_meminfo` (the same code appears in `builder.modules.facts`). */
  method ParseMeminfo(info: string) returns (r: Result<map<string, int>, Exception>)
    ensures r == MemInfo(info)
  {
    var lines := Split(info, '\n');
    var ret: map<string, int> := map[];
    for i := 0 to |lines|
      invariant Scan(MemLine, map[], lines[..i]) == Ok(ret)
    {
      ScanStep(MemLine, map[], lines, i);
      var next := MeminfoLine(ret, lines[i]);
      if next.Err? {
        ScanStops(MemLine, map[], lines, i + 1);
        return next;
      }
      ret := next.value;
    }
    assert lines[..|lines|] == lines;
    return Ok(ret);
  }

  /** The body of the line loop of `parse_meminfo`. */
  method MeminfoLine(ret0: map<string, int>, line: string) returns (r: Result<map<string, int>, Exception>)
    ensures r == MemLine(ret0, line)
  {
    var kv := Split(line, ':');
    if |kv| != 2 {
      return Ok(ret0);
    }
    var k := Strip(kv[0]);
    var v := Strip(kv[1]);
    assert MemLine(ret0, line) == MemEntry(ret0, k, v);
    r := MeminfoEntry(ret0, k, v);
  }

  /** The `k: v` branches: the two totals, in MiB; the value may raise. */
  method MeminfoEntry(ret0: map<string, int>, k: string, v: string) returns (r: Result<map<string, int>, Exception>)
    ensures r == MemEntry(ret0, k, v)
  {
    if k == "MemTotal" || k == "MemFree" {
      var m := Mebibytes(v);
      if m.Err? {
        return Err(m.error);
      }
      if k == "MemTotal" {
        return Ok(ret0[MemTotal := m.value]);
      } else {
        return Ok(ret0[MemFree := m.value]);
      }
    }
    return Ok(ret0);
  }

  predicate NamesMem(line: string, k: string) {
    ColonPair(line).Some? && ColonPair(line).value.0 == k
  }

  lemma MemLineFrame(ret: map<string, int>, line: string, key: string, k: string)
    requires (key == MemTotal && k == "MemTotal") || (key == MemFree && k == "MemFree")
    ensures MemLine(ret, line).Ok? ==>
      if NamesMem(line, k) then key in MemLine(ret, line).value else KeepsEntry(ret, MemLine(ret, line).value, key)
  {
    if ColonPair(line).Some? {
      MemEntryFrame(ret, ColonPair(line).value.0, ColonPair(line).value.1, key, k);
    }
  }

  lemma MemEntryFrame(ret: map<string, int>, k0: string, v: string, key: string, k: string)
    requires (key == MemTotal && k == "MemTotal") || (key == MemFree && k == "MemFree")
    ensures MemEntry(ret, k0, v).Ok? ==>
      if k0 == k then key in MemEntry(ret, k0, v).value else KeepsEntry(ret, MemEntry(ret, k0, v).value, key)
  {
  }

  /** There are no defaults: `mem_total` (`mem_free`) is present exactly when a `MemTotal` (`MemFree`) line is. */
  lemma MemPresentIffLine(lines: seq<string>, key: string, k: string)
    requires (key == MemTotal && k == "MemTotal") || (key == MemFree && k == "MemFree")
    ensures var r := Scan(MemLine, map[], lines);
      r.Ok? ==> (key in r.value <==> exists i :: 0 <= i < |lines| && NamesMem(lines[i], k))
  {
    forall t: map<string, int>, i | 0 <= i < |lines| && MemLine(t, lines[i]).Ok?
      ensures if NamesMem(lines[i], k) then key in MemLine(t, lines[i]).value
              else KeepsEntry(t, MemLine(t, lines[i]).value, key)
    {
      MemLineFrame(t, lines[i], key, k);
    }
    PresentIffWritten(MemLine, map[], lines, key, l => NamesMem(l, k));
  }

  /** The last `MemTotal` (`MemFree`) line decides the value. */
  lemma MemFromLastLine(a: seq<string>, line: string, b: seq<string>, key: string, k: string, m: int)
    requires (key == MemTotal && k == "MemTotal") || (key == MemFree && k == "MemFree")
    requires NamesMem(line, k) && Mebibytes(ColonPair(line).value.1) == Ok(m)
    requires forall i :: 0 <= i < |b| ==> !NamesMem(b[i], k)
    ensures var r := Scan(MemLine, map[], a + [line] + b);
      r.Ok? ==> key in r.value && r.value[key] == m
  {
    forall t: map<string, int>
      ensures MemLine(t, line) == Ok(t[key := m])
    {
      assert MemLine(t, line) == MemEntry(t, k, ColonPair(line).value.1);
    }
    forall t: map<string, int>, i | 0 <= i < |b| && MemLine(t, b[i]).Ok?
      ensures KeepsEntry(t, MemLine(t, b[i]).value, key)
    {
      MemLineFrame(t, b[i], key, k);
    }
    LastWriteWins(MemLine, map[], a, line, b, key, m);
  }

  // ================================================================ parse_env, parse_release

  /** One `key=value` line: split at the first '=' only, both sides stripped. */
  function KeyValueLine(ret: map<string, string>, line: string): map<string, string> {
    var kv := SplitOnce(line, '=');
    if |kv| != 2 then ret else ret[Strip(kv[0]) := Strip(kv[1])]
  }

  /** What `parse_env` and `parse_release` return: the two functions have the same body. */
  function KeyValues(text: string): map<string, string> {
    Fold(KeyValueLine, map[], Split(text, '\n'))
  }

  /** `parse_env` (and `parse_release`, which is the same loop). */
  method ParseKeyValues(text: string) returns (ret: map<string, string>)
    ensures ret == KeyValues(text)
  {
    var lines := Split(text, '\n');
    ret := map[];
    for i := 0 to |lines|
      invariant Fold(KeyValueLine, map[], lines[..i]) == ret
    {
      assert lines[..i + 1][..i] == lines[..i];
      var kv := SplitOnce(lines[i], '=');
      if |kv| != 2 {
        continue;
      }
      ret := ret[Strip(kv[0]) := Strip(kv[1])];
    }
    assert lines[..|lines|] == lines;
  }

  /** The key a line defines: the stripped text before its first '='. */
  function DefinedKey(line: string): Option<string> {
    if '=' in line then Some(Strip(SplitOnce(line, '=')[0])) else None
  }

  /** Only the first '=' separates: the value keeps every later '='. */
  lemma ValueKeepsEquals(ret: map<string, string>, k: string, v: string)
    requires '=' !in k
    ensures KeyValueLine(ret, k + "=" + v) == ret[Strip(k) := Strip(v)]
    ensures DefinedKey(k + "=" + v) == Some(Strip(k))
  {
    assert k + "=" + v == k + ['='] + v;
    SplitOnceAt(k, '=', v);
  }

  /** A line without '=' changes nothing, wherever it stands. */
  lemma KeyValueSkipsLine(a: seq<string>, line: string, b: seq<string>)
    requires '=' !in line
    ensures Fold(KeyValueLine, map[], a + [line] + b) == Fold(KeyValueLine, map[], a + b)
  {
    FoldSkip(KeyValueLine, map[], a, line, b);
  }

  lemma KeyValueFrame(ret: map<string, string>, line: string, key: string)
    ensures if DefinedKey(line) == Some(key) then key in KeyValueLine(ret, line)
            else KeepsEntry(ret, KeyValueLine(ret, line), key)
  {
  }

  /** A key is present exactly when some line defines it. */
  lemma KeyPresentIffDefined(lines: seq<string>, key: string)
    ensures key in Fold(KeyValueLine, map[], lines) <==> exists i :: 0 <= i < |lines| && DefinedKey(lines[i]) == Some(key)
  {
    forall t: map<string, string>, i | 0 <= i < |lines|
      ensures if DefinedKey(lines[i]) == Some(key) then key in KeyValueLine(t, lines[i])
              else KeepsEntry(t, KeyValueLine(t, lines[i]), key)
    {
      KeyValueFrame(t, lines[i], key);
    }
    FoldPresentIffWritten(KeyValueLine, map[], lines, key, l => DefinedKey(l) == Some(key));
  }

  /** A later definition of a key overwrites every earlier one. */
  lemma LastDefinitionWins(a: seq<string>, k: string, v: string, b: seq<string>)
    requires '=' !in k
    requires forall i :: 0 <= i < |b| ==> DefinedKey(b[i]) != Some(Strip(k))
    ensures var r := Fold(KeyValueLine, map[], a + [k + "=" + v] + b);
      Strip(k) in r && r[Strip(k)] == Strip(v)
  {
    forall t: map<string, string>
      ensures KeyValueLine(t, k + "=" + v) == t[Strip(k) := Strip(v)]
    {
      ValueKeepsEquals(t, k, v);
    }
    forall t: map<string, string>, i | 0 <= i < |b|
      ensures KeepsEntry(t, KeyValueLine(t, b[i]), Strip(k))
    {
      KeyValueFrame(t, b[i], Strip(k));
    }
    FoldLastWriteWins(KeyValueLine, map[], a, k + "=" + v, b, Strip(k), Strip(v));
  }

  // ================================================================ parse_resolv

  /** The DNS details `parse_resolv` returns. */
  datatype Resolver = Resolver(nameservers: seq<string>, sortlist: seq<string>, domain: string,
                               search: seq<string>, options: seq<string>)

  const NoResolver := Resolver([], [], "", [], [])

  /** A line whose first word is a lone "#" or ";" is a comment. */
  predicate IsComment(ws: seq<string>) {
    ws != [] && (ws[0] == "#" || ws[0] == ";")
  }

  /**
   * One line of resolv.conf.  An IndexError from a keyword with no argument is
   * caught and the line skipped, so `nameserver`, `domain` and `options` do
   * nothing without an argument, while `search` with none clears the list.
   */
  function ResolvLine(r: Resolver, line: string): Resolver {
    ResolvWords(r, Words(Strip(line)))
  }

  /** The effect of a line split into words. */
  function ResolvWords(r: Resolver, ws: seq<string>): Resolver {
    if ws == [] || IsComment(ws) then r else ResolvKeyword(r, Lower(ws[0]), ws[1..])
  }

  /** The effect of keyword k (lower-cased) with arguments v. */
  function ResolvKeyword(r: Resolver, k: string, v: seq<string>): Resolver {
    if k == "nameserver" then
      if v == [] || v[0] in r.nameservers then r else r.(nameservers := r.nameservers + [v[0]])
    else if k == "domain" then
      if v == [] then r else r.(domain := v[0])
    else if k == "search" then
      r.(search := v)
    else if k == "sortlist" then
      r.(sortlist := AppendMissing(r.sortlist, v))
    else if k == "options" then
      if v == [] || v[0] in r.options then r else r.(options := r.options + [v[0]])
    else r
  }

  /** What `parse_resolv` returns. */
  function ResolvConf(text: string): Resolver {
    Fold(ResolvLine, NoResolver, Split(text, '\n'))
  }

  method ParseResolv(text: string) returns (r: Resolver)
    ensures r == ResolvConf(text)
  {
    var nameservers: seq<string> := [];
    var search: seq<string> := [];
    var sortlist: seq<string> := [];
    var domain := "";
    var options: seq<string> := [];
    var lines := Split(text, '\n');
    for i := 0 to |lines|
      invariant Fold(ResolvLine, NoResolver, lines[..i]) == Resolver(nameservers, sortlist, domain, search, options)
    {
      assert lines[..i + 1][..i] == lines[..i];
      var ws := Words(Strip(lines[i]));
      if ws == [] {
        continue;
      }
      if ws[0] == "#" || ws[0] == ";" {
        continue;
      }
      nameservers, sortlist, domain, search, options :=
        ApplyKeyword(nameservers, sortlist, domain, search, options, Lower(ws[0]), ws[1..]);
    }
    assert lines[..|lines|] == lines;
    r := Resolver(nameservers, sortlist, domain, search, options);
  }

  /** The body of the `parse_resolv` loop once the line is split into a keyword and its arguments. */
  method ApplyKeyword(nameservers0: seq<string>, sortlist0: seq<string>, domain0: string, search0: seq<string>,
                      options0: seq<string>, k: string, v: seq<string>)
    returns (nameservers: seq<string>, sortlist: seq<string>, domain: string, search: seq<string>, options: seq<string>)
    ensures Resolver(nameservers, sortlist, domain, search, options)
      == ResolvKeyword(Resolver(nameservers0, sortlist0, domain0, search0, options0), k, v)
  {
    nameservers, sortlist, domain, search, options := nameservers0, sortlist0, domain0, search0, options0;
    if k == "nameserver" {
      if v == [] {
        return;
      }
      if v[0] !in nameservers {
        nameservers := nameservers + [v[0]];
      }
    } else if k == "domain" {
      if v == [] {
        return;
      }
      domain := v[0];
    } else if k == "search" {
      search := v;
    } else if k == "sortlist" {
      for j := 0 to |v|
        invariant sortlist == AppendMissing(sortlist0, v[..j])
      {
        assert v[..j + 1][..j] == v[..j];
        if v[j] !in sortlist {
          sortlist := sortlist + [v[j]];
        }
      }
      assert v[..|v|] == v;
    } else if k == "options" {
      if v == [] {
        return;
      }
      if v[0] !in options {
        options := options + [v[0]];
      }
    }
  }

  /** The three lists that collect arguments without repeating them. */
  datatype ListKey = NameserverList | SortList | OptionList

  function Listed(r: Resolver, key: ListKey): seq<string> {
    match key
    case NameserverList => r.nameservers
    case SortList => r.sortlist
    case OptionList => r.options
  }

  /** The arguments a line offers to a list: the first for `nameserver` and `options`, all for `sortlist`. */
  function Offered(line: string, key: ListKey): seq<string> {
    var ws := Words(Strip(line));
    if ws == [] || IsComment(ws) then [] else OfferedArgs(Lower(ws[0]), ws[1..], key)
  }

  /** What keyword k with arguments v offers to a list; nothing without an argument. */
  function OfferedArgs(k: string, v: seq<string>, key: ListKey): seq<string> {
    if v == [] then []
    else
      match key
      case NameserverList => if k == "nameserver" then [v[0]] else []
      case SortList => if k == "sortlist" then v else []
      case OptionList => if k == "options" then [v[0]] else []
  }

  /** Every argument offered by the lines, in order. */
  function AllOffered(lines: seq<string>, key: ListKey): seq<string>
    decreases |lines|
  {
    if lines == [] then [] else AllOffered(lines[..|lines| - 1], key) + Offered(lines[|lines| - 1], key)
  }

  lemma ResolvLineList(r: Resolver, line: string, key: ListKey)
    ensures Listed(ResolvLine(r, line), key) == AppendMissing(Listed(r, key), Offered(line, key))
  {
    var ws := Words(Strip(line));
    if !(ws == [] || IsComment(ws)) {
      KeywordList(r, Lower(ws[0]), ws[1..], key);
    }
  }

  lemma KeywordList(r: Resolver, k: string, v: seq<string>, key: ListKey)
    ensures Listed(ResolvKeyword(r, k, v), key) == AppendMissing(Listed(r, key), OfferedArgs(k, v, key))
  {
    if v != [] {
      assert [v[0]][..0] == [];
    }
  }

  /**
   * Each list is the arguments offered to it, in the order of the lines, each
   * kept at its first occurrence only.
   */
  lemma {:induction false} ResolvListsAreFirstOccurrences(lines: seq<string>, key: ListKey)
    ensures Listed(Fold(ResolvLine, NoResolver, lines), key) == FirstOccurrences(AllOffered(lines, key))
  {
    ListsAppendMissing(lines, key);
    AppendMissingIsFirstOccurrences(AllOffered(lines, key));
  }

  lemma {:induction false} ListsAppendMissing(lines: seq<string>, key: ListKey)
    ensures Listed(Fold(ResolvLine, NoResolver, lines), key) == AppendMissing([], AllOffered(lines, key))
    decreases |lines|
  {
    if lines != [] {
      var init, last := lines[..|lines| - 1], lines[|lines| - 1];
      ListsAppendMissing(init, key);
      ResolvLineList(Fold(ResolvLine, NoResolver, init), last, key);
      AppendMissingConcat([], AllOffered(init, key), Offered(last, key));
    }
  }

  /** No list in the result holds the same entry twice. */
  lemma ResolvNoDuplicates(text: string, key: ListKey)
    ensures NoDup(Listed(ResolvConf(text), key))
  {
    var lines := Split(text, '\n');
    ListsAppendMissing(lines, key);
    AppendMissingNoDup([], AllOffered(lines, key));
  }

  /** The line sets the domain: a `domain` keyword with an argument. */
  predicate SetsDomain(line: string) {
    var ws := Words(Strip(line));
    |ws| >= 2 && !IsComment(ws) && Lower(ws[0]) == "domain"
  }

  /** The line sets the search list: a `search` keyword, with or without arguments. */
  predicate SetsSearch(line: string) {
    var ws := Words(Strip(line));
    |ws| >= 1 && !IsComment(ws) && Lower(ws[0]) == "search"
  }

  function DomainOf(r: Resolver): string { r.domain }
  function SearchOf(r: Resolver): seq<string> { r.search }

  lemma DomainStep(t: Resolver, line: string)
    ensures ResolvLine(t, line).domain == if SetsDomain(line) then Words(Strip(line))[1] else t.domain
  {
    var ws := Words(Strip(line));
    if ws != [] && !IsComment(ws) {
      assert ResolvLine(t, line) == ResolvKeyword(t, Lower(ws[0]), ws[1..]);
    }
  }

  lemma SearchStep(t: Resolver, line: string)
    ensures ResolvLine(t, line).search == if SetsSearch(line) then Words(Strip(line))[1..] else t.search
  {
    var ws := Words(Strip(line));
    if ws != [] && !IsComment(ws) {
      assert ResolvLine(t, line) == ResolvKeyword(t, Lower(ws[0]), ws[1..]);
    }
  }

  /** The domain is the argument of the last `domain` line. */
  lemma LastDomainWins(a: seq<string>, line: string, b: seq<string>)
    requires SetsDomain(line)
    requires forall i :: 0 <= i < |b| ==> !SetsDomain(b[i])
    ensures Fold(ResolvLine, NoResolver, a + [line] + b).domain == Words(Strip(line))[1]
  {
    forall t: Resolver
      ensures DomainOf(ResolvLine(t, line)) == Words(Strip(line))[1]
    {
      DomainStep(t, line);
    }
    forall t: Resolver, i | 0 <= i < |b|
      ensures DomainOf(ResolvLine(t, b[i])) == DomainOf(t)
    {
      DomainStep(t, b[i]);
    }
    FoldLastSetsField(ResolvLine, DomainOf, NoResolver, a, line, b, Words(Strip(line))[1]);
  }

  /** The search list is the arguments of the last `search` line. */
  lemma LastSearchWins(a: seq<string>, line: string, b: seq<string>)
    requires SetsSearch(line)
    requires forall i :: 0 <= i < |b| ==> !SetsSearch(b[i])
    ensures Fold(ResolvLine, NoResolver, a + [line] + b).search == Words(Strip(line))[1..]
  {
    forall t: Resolver
      ensures SearchOf(ResolvLine(t, line)) == Words(Strip(line))[1..]
    {
      SearchStep(t, line);
    }
    forall t: Resolver, i | 0 <= i < |b|
      ensures SearchOf(ResolvLine(t, b[i])) == SearchOf(t)
    {
      SearchStep(t, b[i]);
    }
    FoldLastSetsField(ResolvLine, SearchOf, NoResolver, a, line, b, Words(Strip(line))[1..]);
  }

  /** Without a `domain` line the domain stays empty. */
  lemma NoDomainLine(lines: seq<string>)
    requires forall i :: 0 <= i < |lines| ==> !SetsDomain(lines[i])
    ensures Fold(ResolvLine, NoResolver, lines).domain == ""
  {
    forall t: Resolver, i | 0 <= i < |lines|
      ensures DomainOf(ResolvLine(t, lines[i])) == DomainOf(t)
    {
      DomainStep(t, lines[i]);
    }
    FoldKeepsField(ResolvLine, DomainOf, NoResolver, lines);
  }

  /** Blank lines and comments change nothing, wherever they stand. */
  lemma CommentsSkipped(a: seq<string>, line: string, b: seq<string>)
    requires Words(Strip(line)) == [] || IsComment(Words(Strip(line)))
    ensures Fold(ResolvLine, NoResolver, a + [line] + b) == Fold(ResolvLine, NoResolver, a + b)
  {
    FoldSkip(ResolvLine, NoResolver, a, line, b);
  }

  /** Keywords are matched case-insensitively. */
  lemma KeywordCaseInsensitive(r: Resolver, line1: string, line2: string)
    requires var w1, w2 := Words(Strip(line1)), Words(Strip(line2));
      w1 != [] && w2 != [] && !IsComment(w1) && !IsComment(w2) && Lower(w1[0]) == Lower(w2[0]) && w1[1..] == w2[1..]
    ensures ResolvLine(r, line1) == ResolvLine(r, line2)
  {
  }
}
