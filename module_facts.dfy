/**
 * The fact parsers of `builder.modules.facts`.  Its `parse_cpuinfo` differs from
 * the one in `builder.utils.facts` in one branch only: a `flags` line is split into
 * words as a `Features` line is.  Its `parse_meminfo` is the same code as
 * HostFacts.ParseMeminfo.
 */
module ModuleFacts {
  import opened Wrappers
  import opened Text
  import opened Lines
  import opened HostFacts

  /** The effect of a `k: v` line of `/proc/cpuinfo`. */
  function TokenCpuEntry(ret: Facts, k: string, v: string): Result<Facts, Exception> {
    if k == "processor" then CpuCount(ret, v)
    else if k == "model name" then Ok(ret[CpuModel := Str(v)])
    else if k == "flags" then Ok(ret[CpuFlags := Strs(Words(v))])
    else if k == "Features" then Ok(ret[CpuFlags := Strs(Words(v))])
    else Ok(ret)
  }

  function TokenCpuLine(ret: Facts, line: string): Result<Facts, Exception> {
    match ColonPair(line)
    case None => Ok(ret)
    case Some((k, v)) => TokenCpuEntry(ret, k, v)
  }

  /** What this `parse_cpuinfo` returns, or the exception it raises. */
  function TokenCpuInfo(info: string): Result<Facts, Exception> {
    match Scan(TokenCpuLine, map[], Split(info, '\n'))
    case Err(e) => Err(e)
    case Ok(ret) => Ok(CpuDefaults(ret))
  }

  method ParseCpuinfo(info: string) returns (r: Result<Facts, Exception>)
    ensures r == TokenCpuInfo(info)
  {
    var lines := Split(info, '\n');
    var ret: Facts := map[];
    for i := 0 to |lines|
      invariant Scan(TokenCpuLine, map[], lines[..i]) == Ok(ret)
    {
      ScanStep(TokenCpuLine, map[], lines, i);
      var next := CpuinfoLine(ret, lines[i]);
      if next.Err? {
        ScanStops(TokenCpuLine, map[], lines, i + 1);
        return next;
      }
      ret := next.value;
    }
    assert lines[..|lines|] == lines;
    if NumCpus !in ret {
      ret := ret[NumCpus := Int(0)];
    }
    if CpuModel !in ret {
      ret := ret[CpuModel := Str("Unknown")];
    }
    if CpuFlags !in ret {
      ret := ret[CpuFlags := Strs([])];
    }
    return Ok(ret);
  }

  /** The body of the line loop; a `flags` line is split into words. */
  method CpuinfoLine(ret0: Facts, line: string) returns (r: Result<Facts, Exception>)
    ensures r == TokenCpuLine(ret0, line)
  {
    var kv := Split(line, ':');
    if |kv| != 2 {
      return Ok(ret0);
    }
    var k := Strip(kv[0]);
    var v := Strip(kv[1]);
    assert TokenCpuLine(ret0, line) == TokenCpuEntry(ret0, k, v);
    r := CpuinfoEntry(ret0, k, v);
  }

  /** The `k: v` branches of the line loop. */
  method CpuinfoEntry(ret0: Facts, k: string, v: string) returns (r: Result<Facts, Exception>)
    ensures r == TokenCpuEntry(ret0, k, v)
  {
    if k == "processor" {
      var n := ParseInt(v);
      if n.None? {
        return Err(ValueError(v));
      }
      return Ok(ret0[NumCpus := Int(n.value + 1)]);
    } else if k == "model name" {
      return Ok(ret0[CpuModel := Str(v)]);
    } else if k == "flags" {
      return Ok(ret0[CpuFlags := Strs(Words(v))]);
    } else if k == "Features" {
      return Ok(ret0[CpuFlags := Strs(Words(v))]);
    }
    return Ok(ret0);
  }

  /** The one difference: a `flags` line is tokenised; every other line does what it does in HostFacts. */
  lemma EntryDiffersOnFlagsOnly(ret: Facts, k: string, v: string)
    ensures TokenCpuEntry(ret, k, v) == if k == "flags" then Ok(ret[CpuFlags := Strs(Words(v))]) else CpuEntry(ret, k, v)
  {
  }

  /** A line writes at most the one key it names, and leaves every other entry alone. */
  lemma TokenLineFrame(ret: Facts, line: string, key: string)
    ensures TokenCpuLine(ret, line).Ok? ==>
      if WritesCpu(line, key) then key in TokenCpuLine(ret, line).value else KeepsEntry(ret, TokenCpuLine(ret, line).value, key)
  {
    if ColonPair(line).Some? {
      var k, v := ColonPair(line).value.0, ColonPair(line).value.1;
      assert TokenCpuLine(ret, line) == TokenCpuEntry(ret, k, v);
      TokenEntryFrame(ret, k, v, key);
    }
  }

  lemma TokenEntryFrame(ret: Facts, k: string, v: string, key: string)
    ensures TokenCpuEntry(ret, k, v).Ok? ==>
      if CpuKey(k) == Some(key) then key in TokenCpuEntry(ret, k, v).value
      else KeepsEntry(ret, TokenCpuEntry(ret, k, v).value, key)
  {
    if k == "processor" {
      assert CpuKey(k) == Some(NumCpus);
    } else if k == "model name" {
      assert CpuKey(k) == Some(CpuModel);
    } else if k == "flags" || k == "Features" {
      assert CpuKey(k) == Some(CpuFlags);
    } else {
      assert TokenCpuEntry(ret, k, v) == Ok(ret);
    }
  }

  /** Only lines that split on ':' into exactly two parts count. */
  lemma TokenSkipsOddLine(a: seq<string>, line: string, b: seq<string>)
    requires |Split(line, ':')| != 2
    ensures Scan(TokenCpuLine, map[], a + [line] + b) == Scan(TokenCpuLine, map[], a + b)
  {
    ScanSkip(TokenCpuLine, map[], a, line, b);
  }

  /** Every key is in the result; a default stands exactly when no line names the key. */
  lemma TokenDefaultsWhenAbsent(lines: seq<string>, key: string)
    requires key == NumCpus || key == CpuModel || key == CpuFlags
    requires Scan(TokenCpuLine, map[], lines).Ok?
    ensures var r := CpuDefaults(Scan(TokenCpuLine, map[], lines).value);
      NumCpus in r && CpuModel in r && CpuFlags in r
      && ((forall i :: 0 <= i < |lines| ==> !WritesCpu(lines[i], key)) <==> key !in Scan(TokenCpuLine, map[], lines).value)
      && ((forall i :: 0 <= i < |lines| ==> !WritesCpu(lines[i], key)) ==>
            r[key] == if key == NumCpus then Int(0) else if key == CpuModel then Str("Unknown") else Strs([]))
  {
    forall t: Facts, i | 0 <= i < |lines| && TokenCpuLine(t, lines[i]).Ok?
      ensures if WritesCpu(lines[i], key) then key in TokenCpuLine(t, lines[i]).value
              else KeepsEntry(t, TokenCpuLine(t, lines[i]).value, key)
    {
      TokenLineFrame(t, lines[i], key);
    }
    PresentIffWritten(TokenCpuLine, map[], lines, key, l => WritesCpu(l, key));
  }

  /** Both `flags` and `Features` lines give the word list of their value; the last such line decides. */
  lemma TokenFlagsFromLastLine(a: seq<string>, line: string, b: seq<string>)
    requires WritesCpu(line, CpuFlags)
    requires forall i :: 0 <= i < |b| ==> !WritesCpu(b[i], CpuFlags)
    ensures var r := Scan(TokenCpuLine, map[], a + [line] + b);
      r.Ok? ==> CpuFlags in r.value && r.value[CpuFlags] == Strs(Words(ColonPair(line).value.1))
  {
    var k, v := ColonPair(line).value.0, ColonPair(line).value.1;
    assert k == "flags" || k == "Features" by {
      assert CpuKey(k) == Some(CpuFlags);
    }
    forall t: Facts
      ensures TokenCpuLine(t, line) == Ok(t[CpuFlags := Strs(Words(v))])
    {
      assert TokenCpuLine(t, line) == TokenCpuEntry(t, k, v);
      TokenEntryFlags(t, k, v);
    }
    forall t: Facts, i | 0 <= i < |b| && TokenCpuLine(t, b[i]).Ok?
      ensures KeepsEntry(t, TokenCpuLine(t, b[i]).value, CpuFlags)
    {
      TokenLineFrame(t, b[i], CpuFlags);
    }
    LastWriteWins(TokenCpuLine, map[], a, line, b, CpuFlags, Strs(Words(v)));
  }

  lemma TokenEntryFlags(t: Facts, k: string, v: string)
    requires k == "flags" || k == "Features"
    ensures TokenCpuEntry(t, k, v) == Ok(t[CpuFlags := Strs(Words(v))])
  {
  }

  /** The last `processor` line decides the count: its index plus one. */
  lemma TokenCountFromLastProcessor(a: seq<string>, line: string, b: seq<string>, n: int)
    requires ColonPair(line).Some? && ColonPair(line).value.0 == "processor"
    requires ParseInt(ColonPair(line).value.1) == Some(n)
    requires forall i :: 0 <= i < |b| ==> !WritesCpu(b[i], NumCpus)
    ensures var r := Scan(TokenCpuLine, map[], a + [line] + b);
      r.Ok? ==> NumCpus in r.value && r.value[NumCpus] == Int(n + 1)
  {
    TokenProcessorLine(line, n);
    TokenOtherLinesKeepCount(b);
    LastWriteWins(TokenCpuLine, map[], a, line, b, NumCpus, Int(n + 1));
  }

  lemma TokenProcessorLine(line: string, n: int)
    requires ColonPair(line).Some? && ColonPair(line).value.0 == "processor"
    requires ParseInt(ColonPair(line).value.1) == Some(n)
    ensures forall t: Facts :: TokenCpuLine(t, line) == Ok(t[NumCpus := Int(n + 1)])
  {
    var k, v := ColonPair(line).value.0, ColonPair(line).value.1;
    forall t: Facts
      ensures TokenCpuLine(t, line) == Ok(t[NumCpus := Int(n + 1)])
    {
      assert TokenCpuLine(t, line) == TokenCpuEntry(t, k, v);
      TokenProcessorEntry(t, v, n);
    }
  }

  lemma TokenProcessorEntry(t: Facts, v: string, n: int)
    requires ParseInt(v) == Some(n)
    ensures TokenCpuEntry(t, "processor", v) == Ok(t[NumCpus := Int(n + 1)])
  {
    assert TokenCpuEntry(t, "processor", v) == CpuCount(t, v);
  }

  lemma TokenOtherLinesKeepCount(b: seq<string>)
    requires forall i :: 0 <= i < |b| ==> !WritesCpu(b[i], NumCpus)
    ensures forall t: Facts, i :: 0 <= i < |b| && TokenCpuLine(t, b[i]).Ok? ==> KeepsEntry(t, TokenCpuLine(t, b[i]).value, NumCpus)
  {
    forall t: Facts, i | 0 <= i < |b| && TokenCpuLine(t, b[i]).Ok?
      ensures KeepsEntry(t, TokenCpuLine(t, b[i]).value, NumCpus)
    {
      TokenLineFrame(t, b[i], NumCpus);
    }
  }

  /** Two fact dictionaries that hold the same entries apart from the value of `cpu_flags`. */
  predicate AgreeButFlags(m1: Facts, m2: Facts) {
    m1.Keys == m2.Keys
    && (forall k :: k in m1 && k != CpuFlags ==> m1[k] == m2[k])
  }

  lemma StepAgrees(m1: Facts, m2: Facts, line: string)
    requires AgreeButFlags(m1, m2)
    ensures CpuLine(m1, line).Ok? <==> TokenCpuLine(m2, line).Ok?
    ensures CpuLine(m1, line).Ok? ==> AgreeButFlags(CpuLine(m1, line).value, TokenCpuLine(m2, line).value)
  {
    if ColonPair(line).Some? {
      var k, v := ColonPair(line).value.0, ColonPair(line).value.1;
      assert CpuLine(m1, line) == CpuEntry(m1, k, v);
      assert TokenCpuLine(m2, line) == TokenCpuEntry(m2, k, v);
      EntryAgrees(m1, m2, k, v);
    }
  }

  lemma EntryAgrees(m1: Facts, m2: Facts, k: string, v: string)
    requires AgreeButFlags(m1, m2)
    ensures CpuEntry(m1, k, v).Ok? <==> TokenCpuEntry(m2, k, v).Ok?
    ensures CpuEntry(m1, k, v).Ok? ==> AgreeButFlags(CpuEntry(m1, k, v).value, TokenCpuEntry(m2, k, v).value)
  {
  }

  lemma {:induction false} ScansAgree(lines: seq<string>)
    ensures var r1, r2 := Scan(CpuLine, map[], lines), Scan(TokenCpuLine, map[], lines);
      (r1.Ok? <==> r2.Ok?) && (r1.Ok? ==> AgreeButFlags(r1.value, r2.value))
    decreases |lines|
  {
    if lines != [] {
      var init, last := lines[..|lines| - 1], lines[|lines| - 1];
      ScansAgree(init);
      match Scan(CpuLine, map[], init)
      case Err(e) =>
      case Ok(m1) =>
        var m2 := Scan(TokenCpuLine, map[], init).value;
        StepAgrees(m1, m2, last);
    }
  }

  /**
   * The two versions of `parse_cpuinfo` raise on the same inputs and agree on
   * `num_cpus` and `cpu_model`; only `cpu_flags` can differ.
   */
  lemma CpuInfoVersionsAgree(info: string)
    ensures CpuInfo(info).Ok? <==> TokenCpuInfo(info).Ok?
    ensures CpuInfo(info).Ok? ==>
      CpuInfo(info).value[NumCpus] == TokenCpuInfo(info).value[NumCpus]
      && CpuInfo(info).value[CpuModel] == TokenCpuInfo(info).value[CpuModel]
  {
    ScansAgree(Split(info, '\n'));
  }
}
