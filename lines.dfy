/**
 * Line-oriented parsing: a parser that walks the lines of a command's output and
 * updates its state line by line is modelled by a step function folded over the
 * lines.  `Fold` is for steps that cannot fail, `Scan` for steps that can raise.
 */
module Lines {
  import opened Wrappers

  /** The state after feeding the lines one by one to step. */
  function Fold<S>(step: (S, string) -> S, start: S, lines: seq<string>): S
    decreases |lines|
  {
    if lines == [] then start else step(Fold(step, start, lines[..|lines| - 1]), lines[|lines| - 1])
  }

  /** The state after feeding the lines one by one to step, or the first exception it raises. */
  function Scan<S>(step: (S, string) -> Result<S, Exception>, start: S, lines: seq<string>): Result<S, Exception>
    decreases |lines|
  {
    if lines == [] then Ok(start)
    else
      match Scan(step, start, lines[..|lines| - 1])
      case Err(e) => Err(e)
      case Ok(s) => step(s, lines[|lines| - 1])
  }

  /** Going on from a state: the rest of the lines, unless an exception was already raised. */
  function Continue<S>(step: (S, string) -> Result<S, Exception>, r: Result<S, Exception>, lines: seq<string>): Result<S, Exception> {
    match r
    case Err(e) => Err(e)
    case Ok(s) => Scan(step, s, lines)
  }

  lemma {:induction false} FoldConcat<S>(step: (S, string) -> S, start: S, a: seq<string>, b: seq<string>)
    ensures Fold(step, start, a + b) == Fold(step, Fold(step, start, a), b)
    decreases |b|
  {
    if b == [] {
      assert a + b == a;
    } else {
      FoldConcat(step, start, a, b[..|b| - 1]);
      assert (a + b)[..|a + b| - 1] == a + b[..|b| - 1];
    }
  }

  lemma {:induction false} ScanConcat<S>(step: (S, string) -> Result<S, Exception>, start: S, a: seq<string>, b: seq<string>)
    ensures Scan(step, start, a + b) == Continue(step, Scan(step, start, a), b)
    decreases |b|
  {
    if b == [] {
      assert a + b == a;
    } else {
      ScanConcat(step, start, a, b[..|b| - 1]);
      assert (a + b)[..|a + b| - 1] == a + b[..|b| - 1];
    }
  }

  /** A line the step leaves every state unchanged by can be dropped. */
  lemma FoldSkip<S>(step: (S, string) -> S, start: S, a: seq<string>, line: string, b: seq<string>)
    requires forall t :: step(t, line) == t
    ensures Fold(step, start, a + [line] + b) == Fold(step, start, a + b)
  {
    FoldConcat(step, start, a + [line], b);
    FoldConcat(step, start, a, b);
    assert (a + [line])[..|a|] == a;
  }

  /** A line the step leaves every state unchanged by can be dropped. */
  lemma ScanSkip<S>(step: (S, string) -> Result<S, Exception>, start: S, a: seq<string>, line: string, b: seq<string>)
    requires forall t :: step(t, line) == Ok(t)
    ensures Scan(step, start, a + [line] + b) == Scan(step, start, a + b)
  {
    ScanConcat(step, start, a + [line], b);
    ScanConcat(step, start, a, b);
    var al := a + [line];
    assert al[..|al| - 1] == a && al[|al| - 1] == line;
    match Scan(step, start, a)
    case Err(e) =>
    case Ok(s) =>
      assert step(s, line) == Ok(s);
  }

  /** One more line: the step applied to the state after the lines before it. */
  lemma ScanStep<S>(step: (S, string) -> Result<S, Exception>, start: S, lines: seq<string>, i: nat)
    requires i < |lines| && Scan(step, start, lines[..i]).Ok?
    ensures Scan(step, start, lines[..i + 1]) == step(Scan(step, start, lines[..i]).value, lines[i])
  {
    assert lines[..i + 1][..i] == lines[..i];
  }

  /** Once a line raises, the rest of the lines are not looked at. */
  lemma ScanStops<S>(step: (S, string) -> Result<S, Exception>, start: S, lines: seq<string>, i: nat)
    requires i <= |lines| && Scan(step, start, lines[..i]).Err?
    ensures Scan(step, start, lines) == Scan(step, start, lines[..i])
  {
    assert lines == lines[..i] + lines[i..];
    ScanConcat(step, start, lines[..i], lines[i..]);
  }

  // ---------------------------------------------------------------- dictionaries built line by line

  /** The entry for key is the same in both dictionaries (absent from both or equal). */
  predicate KeepsEntry<V(==)>(before: map<string, V>, after: map<string, V>, key: string) {
    (key in after <==> key in before) && (key in before ==> after[key] == before[key])
  }

  /** Lines none of which touches the entry for key leave it as it was. */
  lemma {:induction false} ScanKeepsEntry<V>(step: (map<string, V>, string) -> Result<map<string, V>, Exception>,
                                             start: map<string, V>, lines: seq<string>, key: string)
    requires forall t: map<string, V>, i :: 0 <= i < |lines| && step(t, lines[i]).Ok? ==> KeepsEntry(t, step(t, lines[i]).value, key)
    ensures Scan(step, start, lines).Ok? ==> KeepsEntry(start, Scan(step, start, lines).value, key)
    decreases |lines|
  {
    if lines != [] {
      var init, last := lines[..|lines| - 1], lines[|lines| - 1];
      assert forall i :: 0 <= i < |init| ==> init[i] == lines[i];
      ScanKeepsEntry(step, start, init, key);
      match Scan(step, start, init)
      case Err(e) =>
      case Ok(t) =>
        assert Scan(step, start, lines) == step(t, last);
        if step(t, last).Ok? {
          assert KeepsEntry(t, step(t, lines[|lines| - 1]).value, key);
        }
    }
  }

  /** The scan raises exactly when some line makes the step raise, if whether a line raises does not depend on the state. */
  lemma {:induction false} ScanFailsIff<S>(step: (S, string) -> Result<S, Exception>, start: S, lines: seq<string>,
                                           fails: string -> bool)
    requires forall t: S, i :: 0 <= i < |lines| ==> (step(t, lines[i]).Err? <==> fails(lines[i]))
    ensures Scan(step, start, lines).Err? <==> exists i :: 0 <= i < |lines| && fails(lines[i])
    decreases |lines|
  {
    if lines != [] {
      var init, last := lines[..|lines| - 1], lines[|lines| - 1];
      assert forall i :: 0 <= i < |init| ==> init[i] == lines[i];
      ScanFailsIff(step, start, init, fails);
      match Scan(step, start, init)
      case Err(e) =>
        var i :| 0 <= i < |init| && fails(init[i]);
        assert fails(lines[i]);
      case Ok(t) =>
        assert Scan(step, start, lines) == step(t, last);
        assert step(t, lines[|lines| - 1]).Err? <==> fails(lines[|lines| - 1]);
    }
  }

  /** The entry for key comes from the last line that writes it: later lines overwrite earlier ones. */
  lemma LastWriteWins<V>(step: (map<string, V>, string) -> Result<map<string, V>, Exception>,
                         start: map<string, V>, a: seq<string>, line: string, b: seq<string>, key: string, value: V)
    requires forall t: map<string, V> :: step(t, line) == Ok(t[key := value])
    requires forall t: map<string, V>, i :: 0 <= i < |b| && step(t, b[i]).Ok? ==> KeepsEntry(t, step(t, b[i]).value, key)
    ensures var r := Scan(step, start, a + [line] + b);
      r.Ok? ==> key in r.value && r.value[key] == value
  {
    var al := a + [line];
    ScanConcat(step, start, al, b);
    assert al[..|al| - 1] == a && al[|al| - 1] == line;
    match Scan(step, start, a)
    case Err(e) =>
    case Ok(t) =>
      assert Scan(step, start, al) == Ok(t[key := value]);
      ScanKeepsEntry(step, t[key := value], b, key);
  }

  /**
   * Starting from an empty dictionary, key is present exactly when some line
   * writes it, if every line either writes key or leaves its entry alone.
   */
  lemma {:induction false} PresentIffWritten<V>(step: (map<string, V>, string) -> Result<map<string, V>, Exception>,
                                                start: map<string, V>, lines: seq<string>, key: string, writes: string -> bool)
    requires key !in start
    requires forall t: map<string, V>, i :: 0 <= i < |lines| && step(t, lines[i]).Ok? ==>
      if writes(lines[i]) then key in step(t, lines[i]).value else KeepsEntry(t, step(t, lines[i]).value, key)
    ensures var r := Scan(step, start, lines);
      r.Ok? ==> (key in r.value <==> exists i :: 0 <= i < |lines| && writes(lines[i]))
    decreases |lines|
  {
    if lines != [] {
      var init := lines[..|lines| - 1];
      var last := lines[|lines| - 1];
      assert forall i :: 0 <= i < |init| ==> init[i] == lines[i];
      PresentIffWritten(step, start, init, key, writes);
      match Scan(step, start, init)
      case Err(e) =>
      case Ok(t) =>
        assert Scan(step, start, lines) == step(t, last);
        if step(t, last).Ok? {
          var u := step(t, last).value;
          assert if writes(lines[|lines| - 1]) then key in step(t, lines[|lines| - 1]).value
                 else KeepsEntry(t, step(t, lines[|lines| - 1]).value, key);
          if !writes(last) && (exists i :: 0 <= i < |lines| && writes(lines[i])) {
            var i :| 0 <= i < |lines| && writes(lines[i]);
            assert i < |init| && writes(init[i]);
          }
        }
    }
  }

  lemma {:induction false} FoldKeepsEntry<V>(step: (map<string, V>, string) -> map<string, V>,
                                             start: map<string, V>, lines: seq<string>, key: string)
    requires forall t: map<string, V>, i :: 0 <= i < |lines| ==> KeepsEntry(t, step(t, lines[i]), key)
    ensures KeepsEntry(start, Fold(step, start, lines), key)
    decreases |lines|
  {
    if lines != [] {
      var init, last := lines[..|lines| - 1], lines[|lines| - 1];
      assert forall i :: 0 <= i < |init| ==> init[i] == lines[i];
      FoldKeepsEntry(step, start, init, key);
      KeepsAt(step, lines, |lines| - 1, Fold(step, start, init), key);
    }
  }

  /** The entry for key comes from the last line that writes it: later lines overwrite earlier ones. */
  lemma FoldLastWriteWins<V>(step: (map<string, V>, string) -> map<string, V>,
                             start: map<string, V>, a: seq<string>, line: string, b: seq<string>, key: string, value: V)
    requires forall t: map<string, V> :: step(t, line) == t[key := value]
    requires forall t: map<string, V>, i :: 0 <= i < |b| ==> KeepsEntry(t, step(t, b[i]), key)
    ensures var r := Fold(step, start, a + [line] + b);
      key in r && r[key] == value
  {
    var al := a + [line];
    FoldConcat(step, start, al, b);
    assert al[..|al| - 1] == a && al[|al| - 1] == line;
    assert Fold(step, start, al) == step(Fold(step, start, a), line);
    WriteAt(step, line, Fold(step, start, a), key, value);
    FoldKeepsEntry(step, Fold(step, start, al), b, key);
  }

  /**
   * Starting from an empty dictionary, key is present exactly when some line
   * writes it, if every line either writes key or leaves its entry alone.
   */
  lemma {:induction false} FoldPresentIffWritten<V>(step: (map<string, V>, string) -> map<string, V>,
                                                    start: map<string, V>, lines: seq<string>, key: string, writes: string -> bool)
    requires key !in start
    requires forall t: map<string, V>, i :: 0 <= i < |lines| ==>
      if writes(lines[i]) then key in step(t, lines[i]) else KeepsEntry(t, step(t, lines[i]), key)
    ensures key in Fold(step, start, lines) <==> exists i :: 0 <= i < |lines| && writes(lines[i])
    decreases |lines|
  {
    if lines != [] {
      var init := lines[..|lines| - 1];
      var last := lines[|lines| - 1];
      assert forall i :: 0 <= i < |init| ==> init[i] == lines[i];
      FoldPresentIffWritten(step, start, init, key, writes);
      WritesOrKeepsAt(step, lines, |lines| - 1, Fold(step, start, init), key, writes);
      if !writes(last) && (exists i :: 0 <= i < |lines| && writes(lines[i])) {
        var i :| 0 <= i < |lines| && writes(lines[i]);
        assert i < |init| && writes(init[i]);
      }
    }
  }

  // Instances of the hypotheses above at one state (the solver does not find them by itself
  // when the state is the result of the generic Fold).

  lemma WriteAt<V>(step: (map<string, V>, string) -> map<string, V>, line: string, t: map<string, V>, key: string, value: V)
    requires forall u: map<string, V> :: step(u, line) == u[key := value]
    ensures step(t, line) == t[key := value]
  {
  }

  lemma KeepsAt<V>(step: (map<string, V>, string) -> map<string, V>, lines: seq<string>, i: nat, t: map<string, V>, key: string)
    requires i < |lines|
    requires forall u: map<string, V>, j :: 0 <= j < |lines| ==> KeepsEntry(u, step(u, lines[j]), key)
    ensures KeepsEntry(t, step(t, lines[i]), key)
  {
  }

  lemma WritesOrKeepsAt<V>(step: (map<string, V>, string) -> map<string, V>, lines: seq<string>, i: nat,
                           t: map<string, V>, key: string, writes: string -> bool)
    requires i < |lines|
    requires forall u: map<string, V>, j :: 0 <= j < |lines| ==>
      if writes(lines[j]) then key in step(u, lines[j]) else KeepsEntry(u, step(u, lines[j]), key)
    ensures if writes(lines[i]) then key in step(t, lines[i]) else KeepsEntry(t, step(t, lines[i]), key)
  {
  }

  // ---------------------------------------------------------------- one field of a record built line by line

  /** Lines none of which changes the field f of the state leave it as it was. */
  lemma {:induction false} FoldKeepsField<S, T>(step: (S, string) -> S, f: S -> T, start: S, lines: seq<string>)
    requires forall t: S, i :: 0 <= i < |lines| ==> f(step(t, lines[i])) == f(t)
    ensures f(Fold(step, start, lines)) == f(start)
    decreases |lines|
  {
    if lines != [] {
      var init := lines[..|lines| - 1];
      assert forall i :: 0 <= i < |init| ==> init[i] == lines[i];
      FoldKeepsField(step, f, start, init);
      FieldAt(step, f, lines, |lines| - 1, Fold(step, start, init));
    }
  }

  /** The field f comes from the last line that sets it. */
  lemma FoldLastSetsField<S, T>(step: (S, string) -> S, f: S -> T, start: S, a: seq<string>, line: string, b: seq<string>, value: T)
    requires forall t: S :: f(step(t, line)) == value
    requires forall t: S, i :: 0 <= i < |b| ==> f(step(t, b[i])) == f(t)
    ensures f(Fold(step, start, a + [line] + b)) == value
  {
    var al := a + [line];
    FoldConcat(step, start, al, b);
    assert al[..|al| - 1] == a && al[|al| - 1] == line;
    FoldKeepsField(step, f, Fold(step, start, al), b);
    SetAt(step, f, line, Fold(step, start, a), value);
  }

  lemma FieldAt<S, T>(step: (S, string) -> S, f: S -> T, lines: seq<string>, i: nat, t: S)
    requires i < |lines|
    requires forall u: S, j :: 0 <= j < |lines| ==> f(step(u, lines[j])) == f(u)
    ensures f(step(t, lines[i])) == f(t)
  {
  }

  lemma SetAt<S, T>(step: (S, string) -> S, f: S -> T, line: string, t: S, value: T)
    requires forall u: S :: f(step(u, line)) == value
    ensures f(step(t, line)) == value
  {
  }
}
